# Avalanche forecast and SNOTEL pipeline: a Dafny model

This project models the sequential core of the avalanche-forecasting
pipeline in Dafny and proves properties about it. The pipeline reads danger
roses, generates them, and assigns SNOTEL stations to forecast regions.
Geometry, images, HTTP and files are given as inputs or oracle functions.

- `forecast_scraper.dfy`, module `ForecastScraper`, models the
  `AvalancheForecastScraper` of
  `update_avalanche_forecast_dataset/update_avalanche_forecast_dataset.py`:
  - the nearest-colour classification of a rose pixel;
  - `read_the_rose` over an HSV grid, with numpy's index rules;
  - the two link rules;
  - the paging and stop rule of `scrape_forecast_data`, over a sequence of
    archive pages with dates as day numbers;
  - the row loop of `run`.
- `rose_generator.dfy`, module `RoseGenerator`, models
  `create_rose/create_rose.py`:
  - `hex_to_rgb`, with Python's `int(_, 16)` and slice semantics, and a
    writer of hex codes as its inverse;
  - `num_to_danger`;
  - `fill_region` on an `Image` class that records its flood fills;
  - `create_rose` as four nested loops. Each is proved equal to a plan: the
    ordered list of fills, or the exception that ends the call.
- `region_index.dfy`, module `RegionIndex`, models the station-to-region
  assignment of `main_notebook.py`:
  - `regions_for_point`, over an index oracle;
  - the elevation bands;
  - `assign_regions`, with its rosters and `station_to_regions`;
  - the row expansion of `build_dataset`.
- `snotel_processor.dfy`, module `SnotelProcessor`, models
  `snotel/snotel_processor.py`:
  - `determine_region`: the first containing region, else the earliest
    nearest;
  - the rosters of `map_stations_to_regions`;
  - the date window of `fetch_and_process_time_series_data`;
  - its merge of fetched values into one record per (date, station);
  - the row projection of `save_to_csv`.
- `wrappers.dfy` and `sequences.dfy` hold `Option`/`Result` and a
  subsequence predicate shared by the modules.

## Model

| member | source | states |
|---|---|---|
| ForecastScraper.SqDistZero | update_avalanche_forecast_dataset/update_avalanche_forecast_dataset.py:65-66 | the (squared) colour distance is zero exactly when the two HSV triples are equal |
| ForecastScraper.ClosestIndex | update_avalanche_forecast_dataset/update_avalanche_forecast_dataset.py:65-69 | the chosen entry is at least as near as every entry and strictly nearer than every earlier one (`min` keeps the first minimum) |
| ForecastScraper.EarliestNearestUnique | update_avalanche_forecast_dataset/update_avalanche_forecast_dataset.py:69 | only one entry is the earliest nearest, so that characterisation fixes the answer |
| ForecastScraper.ConvertToDangerLevel | update_avalanche_forecast_dataset/update_avalanche_forecast_dataset.py:62-71 | a level is returned exactly when the table is non-empty, and it is the level of the earliest nearest registered colour |
| ForecastScraper.ExactColourClassifies | update_avalanche_forecast_dataset/update_avalanche_forecast_dataset.py:65-69 | a sample equal to a level's registered colour, with no earlier level sharing it, classifies to that level |
| ForecastScraper.DecodeDefinedIff | update_avalanche_forecast_dataset/update_avalanche_forecast_dataset.py:50-60 | decoding succeeds exactly when every coordinate is on the image (numpy negative indices included) and the table is non-empty |
| ForecastScraper.DecodeCoversPoints | update_avalanche_forecast_dataset/update_avalanche_forecast_dataset.py:50-60 | a decoded rose has exactly the coordinate-map keys: none omitted, none added, no "unknown" |
| ForecastScraper.DecodeLevelAt | update_avalanche_forecast_dataset/update_avalanche_forecast_dataset.py:52-58 | each point's level is the classification of the pixel at row `coord[1]`, column `coord[0]`, and is a level of the table |
| ForecastScraper.ReadTheRose | update_avalanche_forecast_dataset/update_avalanche_forecast_dataset.py:37-60 | the dictionary-filling loop computes the decode, succeeds exactly when decodable, and covers every point |
| ForecastScraper.NormalizeLink | update_avalanche_forecast_dataset/update_avalanche_forecast_dataset.py:168-169 | the result starts with "http"; a link starting with "http" is kept, any other gets BASE_URL in front |
| ForecastScraper.NormalizeLinkIdempotent | update_avalanche_forecast_dataset/update_avalanche_forecast_dataset.py:230-233 | normalising a link twice is normalising it once |
| ForecastScraper.NormalizeRoseLink | update_avalanche_forecast_dataset/update_avalanche_forecast_dataset.py:238-239 | a rose link starting with "/" gets BASE_URL in front, any other is kept; the result never starts with "/" |
| ForecastScraper.NormalizeRoseLinkIdempotent | update_avalanche_forecast_dataset/update_avalanche_forecast_dataset.py:238-239 | the rose-link rule is idempotent |
| ForecastScraper.ScrapeRowsFacts | update_avalanche_forecast_dataset/update_avalanche_forecast_dataset.py:161-179 | one page yields a prefix of its rows with completed links; it stops only at an unreadable row or right after a row at or before `latest_date` |
| ForecastScraper.ScrapeCollectsPrefix | update_avalanche_forecast_dataset/update_avalanche_forecast_dataset.py:139-187 | the scraped rows are the leading archive rows in page order, links completed, and only the last one may be at or before `latest_date` |
| ForecastScraper.ScrapeStopRule | update_avalanche_forecast_dataset/update_avalanche_forecast_dataset.py:144-187 | collection ends before the archive runs out only at an unreadable row or right after the first row at or before `latest_date` |
| ForecastScraper.ScrapeWithoutLatestTakesAll | update_avalanche_forecast_dataset/update_avalanche_forecast_dataset.py:144-187 | without `latest_date`, and with readable rows, every row up to the first empty or failing page is collected |
| ForecastScraper.PageProgressStep | update_avalanche_forecast_dataset/update_avalanche_forecast_dataset.py:161-179 | one row of the page loop either ends the page (an unreadable row, or a row at or before `latest_date`, appended first) or appends it and goes on |
| ForecastScraper.ScrapePage | update_avalanche_forecast_dataset/update_avalanche_forecast_dataset.py:159-181 | the row loop of one page appends exactly the rows of the page rule and reports whether the scrape ends |
| ForecastScraper.ScrapeForecastData | update_avalanche_forecast_dataset/update_avalanche_forecast_dataset.py:139-187 | the page-counter loop returns the rows of the scrape rule |
| ForecastScraper.ProcessRow | update_avalanche_forecast_dataset/update_avalanche_forecast_dataset.py:227-254 | a scraped row keeps its columns and gains the decoded levels of its rose, or nothing when link, download or decode fails |
| ForecastScraper.Run | update_avalanche_forecast_dataset/update_avalanche_forecast_dataset.py:214-256 | every scraped row is appended exactly once, in order, with its own rose columns |
| ForecastScraper.FailedRoseKeepsRow | update_avalanche_forecast_dataset/update_avalanche_forecast_dataset.py:235-256 | a row whose rose downloads but cannot be decoded gains no columns |
| RoseGenerator.PairValueBound | create_rose/create_rose.py:16 | two hex digits read as a value below 256 |
| RoseGenerator.Slice | create_rose/create_rose.py:16 | a Python slice has the length left once both ends are clamped to the string |
| RoseGenerator.StripHashes | create_rose/create_rose.py:12 | `lstrip('#')` removes the leading `#`s and nothing else |
| RoseGenerator.HexToRgb | create_rose/create_rose.py:10-16 | a parsed colour always has alpha 255 |
| RoseGenerator.HexToRgbIgnoresHashes | create_rose/create_rose.py:12 | any number of leading `#` characters changes nothing |
| RoseGenerator.HexToRgbReadsSixCharacters | create_rose/create_rose.py:12-16 | only the first six characters after the `#`s are read; what follows is ignored |
| RoseGenerator.HexToRgbOfSixDigits | create_rose/create_rose.py:10-16 | `#RRGGBB` parses to (RR, GG, BB, 255), each component the value of its pair, in 0..255 |
| RoseGenerator.HashAndSixDigits | create_rose/create_rose.py:10-16 | a `#` followed by six hex digits parses to the three pair values, each below 256 |
| RoseGenerator.HexToRgbInvertsHexCode | create_rose/create_rose.py:10-16 | parsing the `#rrggbb` code written for a colour gives that colour back, opaque |
| RoseGenerator.HexCodeInvertsHexToRgb | create_rose/create_rose.py:10-16 | writing back a parsed lower-case `#rrggbb` gives the same code |
| RoseGenerator.NumToDanger | create_rose/create_rose.py:25-37 | a name is returned exactly for 0..5; every other integer gives None |
| RoseGenerator.NumToDangerInverse | create_rose/create_rose.py:25-37 | `num_to_danger` and the danger-name numbering invert each other, both ways |
| RoseGenerator.NumToDangerInjective | create_rose/create_rose.py:25-37 | distinct numbers in 0..5 give distinct names |
| RoseGenerator.Image.Open | create_rose/create_rose.py:40 | a freshly opened image carries no fills |
| RoseGenerator.Image.Copy | create_rose/create_rose.py:21 | a copy has the same source and fills as the original |
| RoseGenerator.Image.FloodFill | create_rose/create_rose.py:22 | a flood fill appends exactly one fill to the image it is called on |
| RoseGenerator.FillRegion | create_rose/create_rose.py:18-23 | a bad colour raises ValueError; otherwise a fresh copy with the one extra opaque fill; the image passed in is unchanged |
| RoseGenerator.ConvertedIdempotent | create_rose/create_rose.py:47-48 | a converted danger is not converted again |
| RoseGenerator.LayerFills | create_rose/create_rose.py:46-49 | every fill of a layer is opaque, and a layer with seeds leaves the converted danger behind |
| RoseGenerator.LayerOf | create_rose/create_rose.py:45-51 | the fills of one layer, after its KeyError skips, are opaque |
| RoseGenerator.DirectionLayers | create_rose/create_rose.py:44-51 | the fills of a direction's layers are opaque |
| RoseGenerator.DirectionFills | create_rose/create_rose.py:43-51 | the fills of a direction are opaque |
| RoseGenerator.TierFills | create_rose/create_rose.py:43-51 | the fills of a tier are opaque |
| RoseGenerator.RosePlan | create_rose/create_rose.py:39-53 | every fill `create_rose` issues is opaque |
| RoseGenerator.RosePlanConcat | create_rose/create_rose.py:42 | tiers are drawn in input order, and an exception in an earlier tier wins |
| RoseGenerator.TierFillsConcat | create_rose/create_rose.py:43 | directions are drawn in input order, each starting from its own danger string |
| RoseGenerator.LayerFillsEverySeed | create_rose/create_rose.py:46-49 | a layer with a known colour fills each of its seeds, in stored order, with that colour |
| RoseGenerator.MissingSeedsSkipLayer | create_rose/create_rose.py:46-51 | a missing `"<tier>-<layer>"` key or direction skips the layer and goes on with the next |
| RoseGenerator.MissingColourSkipsLayer | create_rose/create_rose.py:49-51 | a colour table without the layer or the danger skips the layer, keeping the converted danger |
| RoseGenerator.DirectionNumericAlias | create_rose/create_rose.py:47-49 | danger strings that convert alike draw a direction alike |
| RoseGenerator.NumberDrawsAsName | create_rose/create_rose.py:47-49 | a digit such as "3" draws exactly as its name, such as "considerable" |
| RoseGenerator.UnknownNumberCrashes | create_rose/create_rose.py:36-49 | a number above 5 has no name; its layer skips, and the next layer with seeds raises AttributeError |
| RoseGenerator.FillLayer | create_rose/create_rose.py:46-49 | the seed loop issues the planned fills of the layer, or stops with its exception |
| RoseGenerator.FillDirection | create_rose/create_rose.py:44-51 | the layer loop with its `except KeyError` issues the planned fills of the direction |
| RoseGenerator.FillTier | create_rose/create_rose.py:43-51 | the direction loop issues the planned fills of the tier |
| RoseGenerator.CreateRose | create_rose/create_rose.py:39-53 | the returned image carries exactly the planned fills in order; an uncaught exception is returned as that exception |
| RegionIndex.MatchingMembership | main_notebook.py:102-108 | a region is kept exactly when it is a candidate and contains the point or lies within 0.4 of it |
| RegionIndex.MatchingIsSubsequence | main_notebook.py:101-109 | the kept regions are a subsequence of the candidates, in candidate order |
| RegionIndex.RegionsForPoint | main_notebook.py:98-109 | the loop keeps exactly the candidates of `(lon, lat)` that claim the point, in order |
| RegionIndex.ElevationLevel | main_notebook.py:149-153 | the level is in 0..3, and 0 exactly when the region has no bands |
| RegionIndex.ElevationUpperBoundInclusive | main_notebook.py:151 | an elevation equal to `band[0][1]` is level 1; above it, 2 up to `band[1][1]` inclusive |
| RegionIndex.ElevationLevelMonotone | main_notebook.py:151 | the level never decreases as the elevation grows |
| RegionIndex.ThirdBandIgnored | main_notebook.py:151 | the third band is never read; anything above `band[1][1]` is 3 |
| RegionIndex.Bands | main_notebook.py:59-66 | every region has no band table or one of at least two bands |
| RegionIndex.LoganBands | main_notebook.py:59-66 | Logan puts 7000 ft at level 1, 7500 ft at 2, 9000 ft at 3; Moab has level 0 |
| RegionIndex.EmptyRosters | main_notebook.py:141 | there is one empty roster per region of REGION_BOUNDARIES |
| RegionIndex.Enrol | main_notebook.py:148-161 | enrolling a station keeps the set of rosters |
| RegionIndex.EnrolEffect | main_notebook.py:148-161 | enrolling touches exactly the rosters of the station's regions, each by the station's entry |
| RegionIndex.Assign | main_notebook.py:141-163 | the rosters are always exactly one per region, whatever the stations |
| RegionIndex.EnrolStation | main_notebook.py:148-161 | the inner loop enrols the station in each of its regions |
| RegionIndex.AssignRegions | main_notebook.py:135-163 | the loops compute the assignment of the stations in file order |
| RegionIndex.AssignedIff | main_notebook.py:144-162 | a station id is in `station_to_regions` exactly when some station with it was claimed; unclaimed ones are skipped |
| RegionIndex.LastStationWins | main_notebook.py:162 | the last claimed station with an id decides its regions |
| RegionIndex.RosterIff | main_notebook.py:148-161 | a station is on region r's roster exactly when a station with its id was claimed by r |
| RegionIndex.RosterEntryOfLast | main_notebook.py:149-161 | the roster entry comes from the last station with that id that r claimed, with r's elevation level |
| RegionIndex.AssignConsistent | main_notebook.py:141-163 | every region in `station_to_regions` of a station has the station on its roster |
| RegionIndex.ExpandRow | main_notebook.py:228-236 | a series row yields one tidy row per region of its station, or one "Unknown" row when the station is unassigned |
| RegionIndex.ExpandRows | main_notebook.py:226-236 | the expansion loop yields the rows of every series row, in order |
| RegionIndex.ExpandConcat | main_notebook.py:226-236 | expansion respects row order |
| RegionIndex.UnmappedStationRow | main_notebook.py:228-235 | a row of an unassigned station yields one row with Region and elevation_level "Unknown" |
| RegionIndex.MappedStationRows | main_notebook.py:228-236 | a row of an assigned station yields one row per region, in order, with that region's level |
| SnotelProcessor.FirstContaining | snotel/snotel_processor.py:84-86 | the first containing region, which contains the point; none exactly when no region contains it |
| SnotelProcessor.NearestIndex | snotel/snotel_processor.py:88-96 | the distance scan settles on the earliest nearest region (strict `<`) and its distance |
| SnotelProcessor.FirstContainingWins | snotel/snotel_processor.py:84-86 | a containing region with no containing region before it is the one returned |
| SnotelProcessor.RegionOfRule | snotel/snotel_processor.py:80-98 | the first containing region, else the earliest nearest; "Unknown" only without regions, otherwise a region name |
| SnotelProcessor.DetermineRegion | snotel/snotel_processor.py:80-98 | the two loops compute the selection rule |
| SnotelProcessor.MapStationsToRegions | snotel/snotel_processor.py:110-144 | no result without regions; otherwise one roster per region, each holding the stations assigned to it, and the region names |
| SnotelProcessor.SelectIff | snotel/snotel_processor.py:130-132 | a station is in a region's roster exactly when some row of it was assigned that region |
| SnotelProcessor.SelectIsSubsequence | snotel/snotel_processor.py:131-132 | a roster keeps the stations in file order |
| SnotelProcessor.TotalSizeCounts | snotel/snotel_processor.py:129-132 | when every row has a region among distinct names, the rosters together hold as many rows as the file |
| SnotelProcessor.EveryStationInOneRoster | snotel/snotel_processor.py:123-132 | with regions, every station is assigned a region and is in its roster; the rosters hold exactly one entry per station |
| SnotelProcessor.Latest | snotel/snotel_processor.py:199 | the latest stored day is a stored day no earlier than any other |
| SnotelProcessor.FetchWindowRules | snotel/snotel_processor.py:183-221 | a given start wins; else the day after the latest stored day; else 30 days before the end; a fetched window is non-empty and holds no stored day |
| SnotelProcessor.FindIndex | snotel/snotel_processor.py:258-260 | the first record with the (date, station) key, or none when no record has it |
| SnotelProcessor.FindRecord | snotel/snotel_processor.py:258-260 | the linear search finds the first record with the key |
| SnotelProcessor.WithValue | snotel/snotel_processor.py:277-280 | a value sets its column; `<name>_avg` is set only when the value has an average; no other column changes |
| SnotelProcessor.UnknownCodeSetsNothing | snotel/snotel_processor.py:275-276 | an element code matching no column sets nothing |
| SnotelProcessor.KnownCodeSetsItsColumns | snotel/snotel_processor.py:275-280 | with distinct codes, a code sets exactly its own column and average |
| SnotelProcessor.ElementCodesDistinct | snotel/snotel_processor.py:172-181 | the eight element codes are distinct |
| SnotelProcessor.SetFields | snotel/snotel_processor.py:275-280 | the element loop sets the columns of the matching element |
| SnotelProcessor.NewRecord | snotel/snotel_processor.py:264-271 | a new record carries the value's date and station name, the region, elevation, latitude and longitude, and no element columns |
| SnotelProcessor.MergeReading | snotel/snotel_processor.py:255-280 | one value updates its record in place, or appends a new one first |
| SnotelProcessor.MergeValues | snotel/snotel_processor.py:253-280 | the value loop merges the values of one element in order |
| SnotelProcessor.MergeResponse | snotel/snotel_processor.py:246-280 | the site and element loops merge a response in order |
| SnotelProcessor.CollectTimeSeries | snotel/snotel_processor.py:231-280 | the region and station loops merge every fetched value, in region and roster order, into an initially empty list |
| SnotelProcessor.AbsorbEffect | snotel/snotel_processor.py:257-280 | one value changes only the record of its key, or appends one with its metadata; no record moves and no metadata changes |
| SnotelProcessor.MergeAllKeepsPrefix | snotel/snotel_processor.py:262-272 | merging only appends records and never changes a record's key or metadata |
| SnotelProcessor.MergeAllKeys | snotel/snotel_processor.py:257-272 | the merged keys are the old keys plus the keys of the values |
| SnotelProcessor.MergeAllUnique | snotel/snotel_processor.py:257-272 | there is at most one record per (date, station) |
| SnotelProcessor.FirstSightMetadata | snotel/snotel_processor.py:262-272 | a record keeps the region, elevation, latitude and longitude of the first value of its key |
| SnotelProcessor.AbsorbCreates | snotel/snotel_processor.py:262-272 | a value of a new key appends the record found for that key, carrying the value's metadata |
| SnotelProcessor.UpdatedFrame | snotel/snotel_processor.py:275-280 | a value leaves every column its code does not touch as it was |
| SnotelProcessor.AbsorbSetsColumn | snotel/snotel_processor.py:274-277 | a value puts itself in its element's column of the record of its key |
| SnotelProcessor.LastValueWins | snotel/snotel_processor.py:274-280 | a value's element column holds that value in the end, unless a later value for the same (date, station) writes the column again |
| SnotelProcessor.RowData | snotel/snotel_processor.py:46-47 | the row dict has exactly the header's columns |
| SnotelProcessor.WriteRow | snotel/snotel_processor.py:43-48 | `DictWriter.writerow` fails exactly for a key outside the header; otherwise one cell per column |
| SnotelProcessor.ProjectionWritesCleanly | snotel/snotel_processor.py:37-48 | writing a station's row never fails and gives the nine kept columns in order, missing ones "", then the day |
| SnotelProcessor.ProjectionIgnoresOtherKeys | snotel/snotel_processor.py:46 | keys of the response outside the nine change nothing |
| SnotelProcessor.SaveToCsv | snotel/snotel_processor.py:34-49 | the header, then one projected line per station in order |
| SnotelProcessor.RosterMap | snotel/snotel_processor.py:129-132 | there is one roster per region |
| SnotelProcessor.UpdateTimeSeries | snotel/snotel_processor.py:167-280 | nothing is fetched exactly when the window is empty; without regions the unpacking fails; otherwise the merge of every fetched value |
| SnotelProcessor.UpdateRecords | snotel/snotel_processor.py:231-280 | an update's records have distinct keys, exactly one per fetched (date, station) |

## Left out

- HTTP and HTML are not modelled. These are the requests, the BeautifulSoup
  parsing, `get_rose_link`, `fetch_snotel_metadata` and
  `fetch_snotel_station_data`. Their results are inputs: archive pages, a
  rose-link function, a download function and a per-station response
  function.
- CSV, JSON and dataframe I/O is not modelled. This covers:
  - the pandas reads and writes, `concat`, `merge` and `sort_values`;
  - the temporary-file rename;
  - `process_rose_data`;
  - the header padding and appending in snotel/snotel_processor.py:283-316.
  What the files hold is an input: stored days, station rows and station
  objects.
- Image decoding and conversion are not modelled: `Image.open`, the HSV
  conversion and the pixels painted by `ImageDraw.floodfill`. The decoder
  takes an integer HSV grid. The generator records its fills in order
  instead of painting them.
- Geometry is not modelled: shapely polygons, `contains`, `distance`,
  `STRtree` and `prep`. They are oracle functions. In main_notebook.py the
  index query is taken to yield region polygons, each named by its region.
  In snotel/snotel_processor.py the point is `Point(lat, lon)`, as written.
  The orientation of `region_boundaries.json` is outside this model.
- Real distances stand for floats. A NaN distance is not modelled.
- The thread pool and `_process_station` in `fetch_snotel_timeseries` are
  not modelled: this is concurrent fetching outside the core.
- Progress and timing output is not modelled.
- Dates are integer day numbers. Date parsing and formatting with
  `strptime` and `pd.to_datetime` are not modelled.
- ForecastScraper.ScrapeRows: a row whose columns read but whose date
  `pd.to_datetime` rejects is not modelled. When `latest_date` is set, the
  source appends that row and then ends the whole scrape through the
  `except` in update_avalanche_forecast_dataset.py:171-185, so the row is
  kept and scraping stops. The model only has an unreadable row (stop, not
  kept) and a row at or before the latest date (stop, kept).
- ForecastScraper.ProcessRow: `row.update(rose_data)` would let a point
  named 'Date Issued', 'Forecast Area' or 'Link' overwrite the scraped
  column. The model keeps the three scraped fields and the rose columns
  apart, so it does not capture that overwrite.
- ForecastScraper.ConvertToDangerLevel: the danger table is a sequence,
  so it admits repeated levels, which the source's dict cannot hold. Its
  colours are taken to be byte triples, which colors.json does not
  enforce. The HSV grid also admits ragged rows, which a numpy array
  cannot have.
- main.py, snotel/visualize_regions.py, `plot_regions` and
  update_dataset/update_dataset.py are not part of this model. They are
  orchestration, plotting, or a script built on a module that is not
  available.
- `process_snotel_data` and the `__main__` blocks are not modelled. They
  only sequence the modelled operations.
- `str.isnumeric` and `int()` are modelled for the ASCII digits only. Other Unicode numeric characters are not covered.
- RegionIndex.ElevationLevel: the model requires a band table that is
  empty or has at least two bands. The source would raise IndexError on a
  one-band table above its bound, and no region of REGION_ELEVATIONS has
  one.
- A missing elevation in the metadata is not
  modelled. In Python, comparing "" with a number raises TypeError.
- The metadata join in `build_dataset`, `ts_df.merge(stations_df)`, is not
  modelled. Only the station id of each series row matters to the
  expansion.
- Roster stations carry the five roster columns.
  Response values and station-object values are modelled as already
  rendered text or numbers. JSON typing is not modelled.
- SnotelProcessor.UpdateTimeSeries: the `if not region_stations` branch is
  not modelled. It cannot be reached once regions exist, because the
  grouping then returns one roster per region.

## Where the code and its design description differ (the model follows the code)

- The description has the decoder try three layers per cell and omit
  absent cells. `read_the_rose` samples one pixel per coordinate-map key,
  and every key gets a level.
- The description has an "Unknown" danger level. The classifier always
  returns the nearest level of a single colour table.
- The description asks that numbers outside 0..5 be rejected.
  `num_to_danger` returns `None`. The next step then skips the layer with
  a KeyError. The layer after that raises AttributeError.
- The description mentions a configurable alpha. `hex_to_rgb` always
  appends 255.
- The description says malformed polygons fail at index-build time. The
  code does not validate polygons.
- `regions_for_point` returns region names only. There is no
  interior/boundary flag.
