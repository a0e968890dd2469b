/**
 * Station-to-region assignment of the SNOTEL dataset builder
 * (main_notebook.py): every candidate region that contains a station or
 * lies within 0.4 degrees of it, an elevation band per (station, region),
 * the per-region rosters, and the expansion of time-series rows into one
 * row per region of their station.
 *
 * The geometry (spatial index query, containment, distance to a polygon's
 * exterior) is given as oracle functions.
 */
module RegionIndex {
  import opened Sequences

  // ---------------------------------------------------------------------
  // Regions and the spatial oracles
  // ---------------------------------------------------------------------

  /** The regions of REGION_BOUNDARIES, in declaration order. */
  const REGION_NAMES: seq<string> :=
    ["Logan", "Ogden", "Salt Lake", "Uintas", "Provo", "Skyline", "Moab", "Abajos", "Southwest"]

  /** REGION_ELEVATIONS: (low, high) feet per band, for the six modelled regions. */
  const REGION_ELEVATIONS: map<string, seq<(int, int)>> := map[
    "Logan" := [(0, 7000), (7001, 8500), (8501, 20000)],
    "Ogden" := [(0, 7000), (7001, 8500), (8501, 20000)],
    "Uintas" := [(0, 9500), (9501, 10000), (10001, 20000)],
    "Salt Lake" := [(0, 8000), (8001, 9500), (9501, 20000)],
    "Provo" := [(0, 8000), (8001, 9500), (9501, 20000)],
    "Skyline" := [(0, 8000), (8001, 9500), (9501, 20000)]
  ]

  /** The distance, in degrees, within which a region that does not contain a point still claims it. */
  const THRESHOLD: real := 0.4

  /** A point as the geometry library takes it: x is the longitude, y the latitude. */
  datatype Point = Point(x: real, y: real)

  /**
   * The spatial index over the region polygons: the regions whose bounding
   * boxes a point may hit (in the index's order), whether a region's
   * polygon contains the point, and the distance from the point to the
   * polygon's exterior ring.
   */
  datatype Geometry = Geometry(
    query: Point -> seq<string>,
    contains: (string, Point) -> bool,
    exteriorDistance: (string, Point) -> real)

  /** The index is built from REGION_BOUNDARIES, so it only ever names those regions. */
  ghost predicate IndexesRegions(g: Geometry)
  {
    forall p: Point, i :: 0 <= i < |g.query(p)| ==> g.query(p)[i] in REGION_NAMES
  }

  predicate Claims(g: Geometry, region: string, pt: Point)
  {
    g.contains(region, pt) || g.exteriorDistance(region, pt) <= THRESHOLD
  }

  /** The candidates that claim the point, in candidate order. */
  function Matching(g: Geometry, candidates: seq<string>, pt: Point): seq<string>
  {
    if candidates == [] then []
    else (if Claims(g, candidates[0], pt) then [candidates[0]] else []) + Matching(g, candidates[1..], pt)
  }

  /** A region is kept exactly when it is a candidate and claims the point. */
  lemma {:induction false} MatchingMembership(g: Geometry, candidates: seq<string>, pt: Point, region: string)
    ensures region in Matching(g, candidates, pt) <==> region in candidates && Claims(g, region, pt)
  {
    if candidates != [] {
      MatchingMembership(g, candidates[1..], pt, region);
      assert candidates == [candidates[0]] + candidates[1..];
    }
  }

  /** The kept regions keep the candidates' order. */
  lemma {:induction false} MatchingIsSubsequence(g: Geometry, candidates: seq<string>, pt: Point)
    ensures IsSubsequence(Matching(g, candidates, pt), candidates)
  {
    if candidates != [] {
      MatchingIsSubsequence(g, candidates[1..], pt);
      var rest := Matching(g, candidates[1..], pt);
      if Claims(g, candidates[0], pt) {
        assert Matching(g, candidates, pt) == [candidates[0]] + rest;
        assert ([candidates[0]] + rest)[1..] == rest;
      } else {
        assert Matching(g, candidates, pt) == rest;
        SubsequenceOfTail(rest, candidates);
      }
    }
  }

  lemma MatchingStep(g: Geometry, candidates: seq<string>, i: nat, pt: Point, kept: seq<string>)
    requires i < |candidates|
    ensures Claims(g, candidates[i], pt) ==>
      kept + Matching(g, candidates[i..], pt) == (kept + [candidates[i]]) + Matching(g, candidates[i + 1..], pt)
    ensures !Claims(g, candidates[i], pt) ==>
      kept + Matching(g, candidates[i..], pt) == kept + Matching(g, candidates[i + 1..], pt)
  {
    assert candidates[i..][1..] == candidates[i + 1..];
    var rest := Matching(g, candidates[i + 1..], pt);
    if Claims(g, candidates[i], pt) {
      assert kept + ([candidates[i]] + rest) == (kept + [candidates[i]]) + rest;
    } else {
      assert [] + rest == rest;
    }
  }

  /** `regions_for_point`: the candidate regions that contain the point or lie within the threshold. */
  method RegionsForPoint(g: Geometry, lat: real, lon: real) returns (regions: seq<string>)
    ensures regions == Matching(g, g.query(Point(lon, lat)), Point(lon, lat))
  {
    var pt := Point(lon, lat);
    var candidates := g.query(pt);
    regions := [];
    assert candidates[0..] == candidates;
    assert [] + Matching(g, candidates, pt) == Matching(g, candidates, pt);
    for i := 0 to |candidates|
      invariant regions + Matching(g, candidates[i..], pt) == Matching(g, candidates, pt)
    {
      MatchingStep(g, candidates, i, pt, regions);
      var region := candidates[i];
      if g.contains(region, pt) {
        regions := regions + [region];
      } else if g.exteriorDistance(region, pt) <= THRESHOLD {
        regions := regions + [region];
      }
    }
    assert candidates[|candidates|..] == [];
    assert regions + [] == regions;
  }

  // ---------------------------------------------------------------------
  // Elevation bands
  // ---------------------------------------------------------------------

  /**
   * The elevation level of a station in a region with bands `band` (no
   * entry counts as none): 1 up to the first band's upper bound, 2 up to
   * the second's, 3 above. The source reads `band[1]` only above the first
   * bound, which every band table here has.
   */
  function ElevationLevel(band: seq<(int, int)>, elevation: real): (level: int)
    requires band == [] || |band| >= 2
    ensures 0 <= level <= 3
    ensures level == 0 <==> band == []
  {
    if band != [] then
      if elevation <= band[0].1 as real then 1 else if elevation <= band[1].1 as real then 2 else 3
    else 0
  }

  /** Upper bounds are inclusive: an elevation at the first band's upper bound is level 1, just above it level 2 or 3. */
  lemma ElevationUpperBoundInclusive(band: seq<(int, int)>, elevation: real)
    requires |band| >= 2
    ensures elevation == band[0].1 as real ==> ElevationLevel(band, elevation) == 1
    ensures elevation > band[0].1 as real ==> ElevationLevel(band, elevation) >= 2
    ensures elevation > band[0].1 as real && elevation <= band[1].1 as real ==> ElevationLevel(band, elevation) == 2
  {
  }

  /** The level never decreases as the elevation grows. */
  lemma ElevationLevelMonotone(band: seq<(int, int)>, e1: real, e2: real)
    requires band == [] || |band| >= 2
    requires e1 <= e2
    ensures ElevationLevel(band, e1) <= ElevationLevel(band, e2)
  {
  }

  /** Only the first two bands are read: the third band's bounds change nothing. */
  lemma ThirdBandIgnored(band: seq<(int, int)>, other: (int, int), elevation: real)
    requires |band| >= 3
    ensures ElevationLevel(band, elevation) == ElevationLevel(band[2 := other], elevation)
    ensures elevation > band[0].1 as real && elevation > band[1].1 as real ==> ElevationLevel(band, elevation) == 3
  {
  }

  /** The band table of a region: REGION_ELEVATIONS.get(region), none when absent. */
  function Bands(region: string): (band: seq<(int, int)>)
    ensures band == [] || |band| >= 2
  {
    if region in REGION_ELEVATIONS then REGION_ELEVATIONS[region] else []
  }

  function LevelIn(region: string, elevation: real): int
  {
    ElevationLevel(Bands(region), elevation)
  }

  /** Logan's bands put 7000 ft in level 1, 7500 ft in level 2 and 9000 ft in level 3; Moab has no bands. */
  lemma LoganBands()
    ensures LevelIn("Logan", 7000.0) == 1 && LevelIn("Logan", 7500.0) == 2 && LevelIn("Logan", 9000.0) == 3
    ensures LevelIn("Moab", 7500.0) == 0
  {
    assert "Logan" in REGION_ELEVATIONS;
    assert "Moab" !in REGION_ELEVATIONS;
  }

  // ---------------------------------------------------------------------
  // assign_regions
  // ---------------------------------------------------------------------

  /** A row of the station metadata. */
  datatype Station = Station(stationId: string, name: string, elevation: real, latitude: real, longitude: real)

  /** A roster entry: the station's metadata and its elevation level in that region. */
  datatype RosterEntry = RosterEntry(
    stationId: string, name: string, elevation: real, latitude: real, longitude: real, elevationLevel: int)

  /** `region_stations` (region -> stationId -> entry) and `station_to_regions` (stationId -> regions). */
  datatype Assignment = Assignment(rosters: map<string, map<string, RosterEntry>>, toRegions: map<string, seq<string>>)

  function RegionsOf(g: Geometry, s: Station): seq<string>
  {
    Matching(g, g.query(Point(s.longitude, s.latitude)), Point(s.longitude, s.latitude))
  }

  function EntryFor(s: Station, region: string): RosterEntry
  {
    RosterEntry(s.stationId, s.name, s.elevation, s.latitude, s.longitude, LevelIn(region, s.elevation))
  }

  /** One empty roster per region. */
  function EmptyRosters(): (rosters: map<string, map<string, RosterEntry>>)
    ensures rosters.Keys == set r | r in REGION_NAMES
    ensures forall r :: r in rosters ==> rosters[r] == map[]
  {
    map r | r in REGION_NAMES :: map[]
  }

  /** Enter the station in the roster of each region of `regions`, in order. */
  function Enrol(rosters: map<string, map<string, RosterEntry>>, regions: seq<string>, s: Station)
    : (after: map<string, map<string, RosterEntry>>)
    requires forall i :: 0 <= i < |regions| ==> regions[i] in rosters
    ensures after.Keys == rosters.Keys
  {
    if regions == [] then rosters
    else
      var last := regions[|regions| - 1];
      var before := Enrol(rosters, regions[..|regions| - 1], s);
      before[last := before[last][s.stationId := EntryFor(s, last)]]
  }

  /** Enrolling touches exactly the rosters of the station's regions, each by one entry. */
  lemma {:induction false} EnrolEffect(rosters: map<string, map<string, RosterEntry>>, regions: seq<string>, s: Station,
                                       r: string)
    requires forall i :: 0 <= i < |regions| ==> regions[i] in rosters
    requires r in rosters
    ensures r in regions ==> Enrol(rosters, regions, s)[r] == rosters[r][s.stationId := EntryFor(s, r)]
    ensures r !in regions ==> Enrol(rosters, regions, s)[r] == rosters[r]
  {
    if regions != [] {
      var init := regions[..|regions| - 1];
      var last := regions[|regions| - 1];
      EnrolEffect(rosters, init, s, r);
      EnrolLast(rosters, regions, s);
      InSnoc(regions, r);
      var before := Enrol(rosters, init, s);
      UpdateAt(before, last, r, s.stationId, EntryFor(s, last));
      if r == last {
        UpdateTwice(rosters[r], s.stationId, EntryFor(s, r));
      }
    }
  }

  lemma UpdateTwice(m: map<string, RosterEntry>, id: string, e: RosterEntry)
    ensures m[id := e][id := e] == m[id := e]
  {
  }

  /** Entering `id` in `last`'s roster changes that roster only. */
  lemma UpdateAt(m: map<string, map<string, RosterEntry>>, last: string, r: string, id: string, e: RosterEntry)
    requires last in m && r in m
    ensures m[last := m[last][id := e]][r] == if r == last then m[r][id := e] else m[r]
  {
  }

  /** Enrolling in `init + [last]` is enrolling in `init`, then entering the station in `last`'s roster. */
  lemma EnrolLast(rosters: map<string, map<string, RosterEntry>>, regions: seq<string>, s: Station)
    requires regions != []
    requires forall i :: 0 <= i < |regions| ==> regions[i] in rosters
    ensures var last := regions[|regions| - 1];
      var before := Enrol(rosters, regions[..|regions| - 1], s);
      last in before && Enrol(rosters, regions, s) == before[last := before[last][s.stationId := EntryFor(s, last)]]
  {
  }

  lemma InSnoc(regions: seq<string>, r: string)
    requires regions != []
    ensures r in regions <==> r in regions[..|regions| - 1] || r == regions[|regions| - 1]
  {
    assert regions == regions[..|regions| - 1] + [regions[|regions| - 1]];
  }

  /** One station: skipped when no region claims it, otherwise enrolled and mapped to its regions. */
  function AssignStep(g: Geometry, a: Assignment, s: Station): Assignment
    requires IndexesRegions(g)
    requires a.rosters.Keys == set r | r in REGION_NAMES
  {
    var regions := RegionsOf(g, s);
    MatchingWithin(g, s);
    if regions == [] then a
    else Assignment(Enrol(a.rosters, regions, s), a.toRegions[s.stationId := regions])
  }

  lemma MatchingWithin(g: Geometry, s: Station)
    requires IndexesRegions(g)
    ensures forall i :: 0 <= i < |RegionsOf(g, s)| ==> RegionsOf(g, s)[i] in REGION_NAMES
  {
    var pt := Point(s.longitude, s.latitude);
    forall i | 0 <= i < |RegionsOf(g, s)|
      ensures RegionsOf(g, s)[i] in REGION_NAMES
    {
      MatchingMembership(g, g.query(pt), pt, RegionsOf(g, s)[i]);
      var j :| 0 <= j < |g.query(pt)| && g.query(pt)[j] == RegionsOf(g, s)[i];
    }
  }

  /** `assign_regions` over the stations in file order. */
  function Assign(g: Geometry, stations: seq<Station>): (a: Assignment)
    requires IndexesRegions(g)
    ensures a.rosters.Keys == set r | r in REGION_NAMES
  {
    if stations == [] then Assignment(EmptyRosters(), map[])
    else
      var before := Assign(g, stations[..|stations| - 1]);
      var s := stations[|stations| - 1];
      MatchingWithin(g, s);
      AssignStep(g, before, s)
  }

  /** The inner loop of `assign_regions`: the station's entry, with its level, in the roster of each of its regions. */
  method EnrolStation(rosters: map<string, map<string, RosterEntry>>, regions: seq<string>, s: Station)
    returns (after: map<string, map<string, RosterEntry>>)
    requires forall i :: 0 <= i < |regions| ==> regions[i] in rosters
    ensures after == Enrol(rosters, regions, s)
  {
    after := rosters;
    for j := 0 to |regions|
      invariant after == Enrol(rosters, regions[..j], s)
    {
      assert regions[..j + 1][..j] == regions[..j];
      var level := LevelIn(regions[j], s.elevation);
      after := after[regions[j] := after[regions[j]][s.stationId := RosterEntry(
        s.stationId, s.name, s.elevation, s.latitude, s.longitude, level)]];
    }
    assert regions[..|regions|] == regions;
  }

  /** `assign_regions`: fill the rosters and the station-to-regions map, station by station. */
  method AssignRegions(g: Geometry, stations: seq<Station>)
    returns (rosters: map<string, map<string, RosterEntry>>, toRegions: map<string, seq<string>>)
    requires IndexesRegions(g)
    ensures Assignment(rosters, toRegions) == Assign(g, stations)
  {
    rosters := map r | r in REGION_NAMES :: map[];
    toRegions := map[];
    for i := 0 to |stations|
      invariant Assignment(rosters, toRegions) == Assign(g, stations[..i])
    {
      var s := stations[i];
      assert stations[..i + 1][..i] == stations[..i];
      var regions := RegionsForPoint(g, s.latitude, s.longitude);
      if regions == [] {
        continue;
      }
      assert regions == RegionsOf(g, s);
      MatchingWithin(g, s);
      assert forall k :: 0 <= k < |regions| ==> regions[k] in rosters by {
        assert rosters.Keys == set r | r in REGION_NAMES;
      }
      rosters := EnrolStation(rosters, regions, s);
      toRegions := toRegions[s.stationId := regions];
    }
    assert stations[..|stations|] == stations;
  }

  /** Some station with this id was claimed by a region. */
  ghost predicate Placed(g: Geometry, stations: seq<Station>, id: string)
  {
    exists i :: 0 <= i < |stations| && stations[i].stationId == id && RegionsOf(g, stations[i]) != []
  }

  /** A station id is in `station_to_regions` exactly when some station with it was claimed; unclaimed stations are skipped. */
  lemma {:induction false} AssignedIff(g: Geometry, stations: seq<Station>, id: string)
    requires IndexesRegions(g)
    ensures id in Assign(g, stations).toRegions <==> Placed(g, stations, id)
  {
    if stations != [] {
      var init := stations[..|stations| - 1];
      var s := stations[|stations| - 1];
      AssignedIff(g, init, id);
      AssignLastMapping(g, stations, id);
      PlacedSnoc(g, stations, id);
    }
  }

  /** A station list with one station more places an id when its prefix does or that station, claimed, carries it. */
  lemma PlacedSnoc(g: Geometry, stations: seq<Station>, id: string)
    requires stations != []
    ensures var s := stations[|stations| - 1];
      Placed(g, stations, id) <==> Placed(g, stations[..|stations| - 1], id) || (s.stationId == id && RegionsOf(g, s) != [])
  {
    var init := stations[..|stations| - 1];
    var s := stations[|stations| - 1];
    if Placed(g, init, id) {
      var i :| 0 <= i < |init| && init[i].stationId == id && RegionsOf(g, init[i]) != [];
      assert stations[i] == init[i];
    }
    if Placed(g, stations, id) && !(s.stationId == id && RegionsOf(g, s) != []) {
      var i :| 0 <= i < |stations| && stations[i].stationId == id && RegionsOf(g, stations[i]) != [];
      assert i != |stations| - 1;
      assert init[i] == stations[i];
    }
  }

  /** After one station more, an id is mapped when it was mapped before or that station, claimed, carries it. */
  lemma AssignLastMapping(g: Geometry, stations: seq<Station>, id: string)
    requires IndexesRegions(g) && stations != []
    ensures var s := stations[|stations| - 1];
      id in Assign(g, stations).toRegions
      <==> id in Assign(g, stations[..|stations| - 1]).toRegions || (s.stationId == id && RegionsOf(g, s) != [])
  {
    var init := stations[..|stations| - 1];
    assert Assign(g, stations) == AssignStep(g, Assign(g, init), stations[|stations| - 1]);
  }

  /** The last claimed station with an id decides its regions: a later one overwrites an earlier one. */
  lemma {:induction false} LastStationWins(g: Geometry, stations: seq<Station>, i: nat)
    requires IndexesRegions(g)
    requires i < |stations| && RegionsOf(g, stations[i]) != []
    requires forall j :: i < j < |stations| && stations[j].stationId == stations[i].stationId ==> RegionsOf(g, stations[j]) == []
    ensures stations[i].stationId in Assign(g, stations).toRegions
    ensures Assign(g, stations).toRegions[stations[i].stationId] == RegionsOf(g, stations[i])
    decreases |stations|
  {
    var init := stations[..|stations| - 1];
    if i < |stations| - 1 {
      assert init[i] == stations[i];
      LastStationWins(g, init, i);
    }
  }

  /** Some station with this id was claimed by region `r`. */
  ghost predicate ClaimedBy(g: Geometry, stations: seq<Station>, r: string, id: string)
  {
    exists i :: 0 <= i < |stations| && stations[i].stationId == id && r in RegionsOf(g, stations[i])
  }

  lemma ClaimedByExtend(g: Geometry, stations: seq<Station>, r: string, id: string)
    requires stations != []
    ensures var init, s := stations[..|stations| - 1], stations[|stations| - 1];
      ClaimedBy(g, stations, r, id) <==> ClaimedBy(g, init, r, id) || (s.stationId == id && r in RegionsOf(g, s))
  {
    var init := stations[..|stations| - 1];
    if ClaimedBy(g, init, r, id) {
      var i :| 0 <= i < |init| && init[i].stationId == id && r in RegionsOf(g, init[i]);
      assert stations[i] == init[i];
    }
    if ClaimedBy(g, stations, r, id) {
      var i :| 0 <= i < |stations| && stations[i].stationId == id && r in RegionsOf(g, stations[i]);
      if i < |init| {
        assert init[i] == stations[i];
      }
    }
  }

  /** A station has a roster entry in region `r` exactly when a station with its id was claimed by `r`. */
  lemma {:induction false} RosterIff(g: Geometry, stations: seq<Station>, r: string, id: string)
    requires IndexesRegions(g) && r in REGION_NAMES
    ensures id in Assign(g, stations).rosters[r] <==> ClaimedBy(g, stations, r, id)
  {
    if stations != [] {
      var init := stations[..|stations| - 1];
      var s := stations[|stations| - 1];
      RosterIff(g, init, r, id);
      ClaimedByExtend(g, stations, r, id);
      MatchingWithin(g, s);
      if RegionsOf(g, s) != [] {
        EnrolEffect(Assign(g, init).rosters, RegionsOf(g, s), s, r);
      }
    }
  }

  /** The roster entry of a station in `r` comes from the last station with its id that `r` claimed, with `r`'s level. */
  lemma {:induction false} RosterEntryOfLast(g: Geometry, stations: seq<Station>, r: string, i: nat)
    requires IndexesRegions(g) && r in REGION_NAMES
    requires i < |stations| && r in RegionsOf(g, stations[i])
    requires forall j :: i < j < |stations| && stations[j].stationId == stations[i].stationId ==> r !in RegionsOf(g, stations[j])
    ensures stations[i].stationId in Assign(g, stations).rosters[r]
    ensures Assign(g, stations).rosters[r][stations[i].stationId] == EntryFor(stations[i], r)
    ensures Assign(g, stations).rosters[r][stations[i].stationId].elevationLevel == LevelIn(r, stations[i].elevation)
    decreases |stations|
  {
    var init := stations[..|stations| - 1];
    var s := stations[|stations| - 1];
    MatchingWithin(g, s);
    if RegionsOf(g, s) != [] {
      EnrolEffect(Assign(g, init).rosters, RegionsOf(g, s), s, r);
    }
    if i < |stations| - 1 {
      assert init[i] == stations[i];
      RosterEntryOfLast(g, init, r, i);
    }
  }

  /** Every region of a mapped station has the station on its roster. */
  ghost predicate Consistent(a: Assignment)
  {
    forall id :: id in a.toRegions ==>
      a.toRegions[id] != [] && forall k :: 0 <= k < |a.toRegions[id]| ==>
        a.toRegions[id][k] in a.rosters && id in a.rosters[a.toRegions[id][k]]
  }

  /** Assigning keeps `station_to_regions` and the rosters consistent, whatever the order of the stations. */
  lemma {:induction false} AssignConsistent(g: Geometry, stations: seq<Station>)
    requires IndexesRegions(g)
    ensures Consistent(Assign(g, stations))
  {
    if stations != [] {
      var init := stations[..|stations| - 1];
      var s := stations[|stations| - 1];
      AssignConsistent(g, init);
      var before := Assign(g, init);
      var regions := RegionsOf(g, s);
      MatchingWithin(g, s);
      if regions != [] {
        var after := Assign(g, stations);
        assert after == Assignment(Enrol(before.rosters, regions, s), before.toRegions[s.stationId := regions]);
        forall id, k | id in after.toRegions && 0 <= k < |after.toRegions[id]|
          ensures after.toRegions[id][k] in after.rosters && id in after.rosters[after.toRegions[id][k]]
        {
          var r := after.toRegions[id][k];
          if id == s.stationId {
            assert r in regions;
            EnrolEffect(before.rosters, regions, s, r);
          } else {
            assert r in before.rosters && id in before.rosters[r];
            EnrolEffect(before.rosters, regions, s, r);
          }
        }
      }
    }
  }

  // ---------------------------------------------------------------------
  // The row expansion of build_dataset
  // ---------------------------------------------------------------------

  /** A time-series row joined with its station's metadata; only the station id matters here. */
  datatype SeriesRow = SeriesRow(stationId: string, date: int, values: map<string, real>)

  /** An `elevation_level` cell: a level from a roster, or "Unknown". */
  datatype Level = Known(level: int) | UnknownLevel

  /** A row of the tidy dataset: the series row, its Region and its elevation_level. */
  datatype TidyRow = TidyRow(series: SeriesRow, region: string, elevationLevel: Level)

  /** `region_stations.get(reg, {}).get(id, {}).get("elevation_level", "Unknown")`. */
  function LevelCell(rosters: map<string, map<string, RosterEntry>>, region: string, id: string): Level
  {
    if region in rosters && id in rosters[region] then Known(rosters[region][id].elevationLevel) else UnknownLevel
  }

  /** `station_to_regions.get(id, ["Unknown"])`. */
  function RowRegions(toRegions: map<string, seq<string>>, id: string): seq<string>
  {
    if id in toRegions then toRegions[id] else ["Unknown"]
  }

  /** The tidy rows of one series row, one per region of its station, in order. */
  function ExpandRow(a: Assignment, row: SeriesRow): (rows: seq<TidyRow>)
    ensures |rows| == |RowRegions(a.toRegions, row.stationId)|
  {
    var regions := RowRegions(a.toRegions, row.stationId);
    seq(|regions|, k requires 0 <= k < |regions| =>
      TidyRow(row, regions[k], LevelCell(a.rosters, regions[k], row.stationId)))
  }

  /** All series rows expanded, in order. */
  function Expand(a: Assignment, rows: seq<SeriesRow>): seq<TidyRow>
  {
    if rows == [] then [] else Expand(a, rows[..|rows| - 1]) + ExpandRow(a, rows[|rows| - 1])
  }

  /** The expansion loop of `build_dataset`. */
  method ExpandRows(rosters: map<string, map<string, RosterEntry>>, toRegions: map<string, seq<string>>,
                    ds: seq<SeriesRow>)
    returns (rows: seq<TidyRow>)
    ensures rows == Expand(Assignment(rosters, toRegions), ds)
  {
    ghost var a := Assignment(rosters, toRegions);
    rows := [];
    for i := 0 to |ds|
      invariant rows == Expand(a, ds[..i])
    {
      assert ds[..i + 1][..i] == ds[..i];
      var r := ds[i];
      var regions := if r.stationId in toRegions then toRegions[r.stationId] else ["Unknown"];
      ghost var start := rows;
      for k := 0 to |regions|
        invariant rows == start + ExpandRow(a, r)[..k]
      {
        var level := if regions[k] in rosters && r.stationId in rosters[regions[k]]
          then Known(rosters[regions[k]][r.stationId].elevationLevel) else UnknownLevel;
        rows := rows + [TidyRow(r, regions[k], level)];
        assert ExpandRow(a, r)[..k + 1] == ExpandRow(a, r)[..k] + [ExpandRow(a, r)[k]];
      }
      assert ExpandRow(a, r)[..|regions|] == ExpandRow(a, r);
    }
    assert ds[..|ds|] == ds;
  }

  /** Expansion respects row order: the rows of `x` come before the rows of `y`. */
  lemma {:induction false} ExpandConcat(a: Assignment, x: seq<SeriesRow>, y: seq<SeriesRow>)
    ensures Expand(a, x + y) == Expand(a, x) + Expand(a, y)
    decreases |y|
  {
    if y == [] {
      assert x + y == x;
    } else {
      assert (x + y)[..|x + y| - 1] == x + y[..|y| - 1];
      ExpandConcat(a, x, y[..|y| - 1]);
    }
  }

  /** A row of a station without regions yields one row, Region "Unknown", elevation_level "Unknown". */
  lemma UnmappedStationRow(g: Geometry, stations: seq<Station>, row: SeriesRow)
    requires IndexesRegions(g)
    requires !Placed(g, stations, row.stationId)
    ensures ExpandRow(Assign(g, stations), row) == [TidyRow(row, "Unknown", UnknownLevel)]
  {
    AssignedIff(g, stations, row.stationId);
    assert "Unknown" !in Assign(g, stations).rosters;
  }

  /**
   * A row of a mapped station yields one row per region it was mapped to,
   * in that order, each with the station's level in that region.
   */
  lemma MappedStationRows(g: Geometry, stations: seq<Station>, row: SeriesRow, k: nat)
    requires IndexesRegions(g)
    requires row.stationId in Assign(g, stations).toRegions
    requires k < |Assign(g, stations).toRegions[row.stationId]|
    ensures var a := Assign(g, stations);
      var region := a.toRegions[row.stationId][k];
      && |ExpandRow(a, row)| == |a.toRegions[row.stationId]|
      && region in a.rosters && row.stationId in a.rosters[region]
      && ExpandRow(a, row)[k] == TidyRow(row, region, Known(a.rosters[region][row.stationId].elevationLevel))
  {
    AssignConsistent(g, stations);
  }
}
