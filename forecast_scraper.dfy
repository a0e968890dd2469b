/**
 * The avalanche-forecast scraper (class AvalancheForecastScraper): how one
 * pixel is classified into a danger level, how a rose image is decoded
 * point by point, how forecast and rose links are completed, when the paged
 * archive scrape stops, and how `run` carries every scraped row through the
 * rose decoding.
 *
 * The scraper's two JSON tables (`coordinates`, `danger_levels`) are passed
 * as parameters. The HTTP fetches, the HTML parsing and the image decoding
 * into an HSV array are outside the model: their outputs are inputs here.
 */
module ForecastScraper {
  import opened Wrappers

  /** One channel of the HSV array, which numpy stores as uint8. */
  type Channel = x: int | 0 <= x < 256

  datatype Hsv = Hsv(h: Channel, s: Channel, v: Channel)

  /**
   * The HSV image as rows of pixels, `grid[row][column]`, origin top-left.
   * A numpy array has rows of one length; this type also admits ragged rows,
   * which `PixelAt` bounds-checks row by row.
   */
  type Grid = seq<seq<Hsv>>

  /**
   * `danger_levels`: (level, registered colour) pairs in the order of colors.json.
   * The dict built from colors.json has distinct levels, and its colours may be
   * any JSON numbers; this type admits repeated levels and takes the colours to
   * be byte triples like the image's pixels.
   */
  type DangerTable = seq<(int, Hsv)>

  /** A coordinate-map value `[x, y]`. */
  datatype Coord = Coord(x: int, y: int)

  /** `coordinates`: (point name, coordinate) pairs in the order of coordinates.json. */
  type CoordinateMap = seq<(string, Coord)>

  const BASE_URL: string := "https://utahavalanchecenter.org"

  predicate StartsWith(s: string, prefix: string) {
    |prefix| <= |s| && s[..|prefix|] == prefix
  }

  // ---------------------------------------------------------------------
  // Classification of one pixel
  // ---------------------------------------------------------------------

  /**
   * The squared Euclidean distance between two colours. The uint8 channels
   * are widened to int64 before they are subtracted, so nothing wraps, and
   * since the square root is monotone the arg-min over squared distances is
   * the arg-min over `np.linalg.norm`.
   */
  function SqDist(a: Hsv, b: Hsv): nat {
    (a.h - b.h) * (a.h - b.h) + (a.s - b.s) * (a.s - b.s) + (a.v - b.v) * (a.v - b.v)
  }

  lemma SqDistZero(a: Hsv, b: Hsv)
    ensures SqDist(a, b) == 0 <==> a == b
  {
    var dh, ds, dv := a.h - b.h, a.s - b.s, a.v - b.v;
    SquareNonNegative(dh);
    SquareNonNegative(ds);
    SquareNonNegative(dv);
    if a != b {
      if dh != 0 {
        SquarePositive(dh);
      } else if ds != 0 {
        SquarePositive(ds);
      } else {
        SquarePositive(dv);
      }
    }
  }

  lemma SquareNonNegative(x: int)
    ensures x * x >= 0
  {
  }

  lemma SquarePositive(x: int)
    requires x != 0
    ensures x * x > 0
  {
    if x > 0 {
      assert x * x >= x;
    } else {
      assert x * x >= -x;
    }
  }

  /** Entry `k` is at least as close to `sample` as every entry, and strictly closer than every earlier one. */
  ghost predicate IsEarliestNearest(table: DangerTable, sample: Hsv, k: int) {
    && 0 <= k < |table|
    && (forall j :: 0 <= j < |table| ==> SqDist(sample, table[k].1) <= SqDist(sample, table[j].1))
    && (forall j :: 0 <= j < k ==> SqDist(sample, table[j].1) > SqDist(sample, table[k].1))
  }

  /**
   * The entry `min(distances, key=distances.get)` settles on: scanning the
   * table in order, an entry replaces the running best only when it is
   * strictly closer, so the first of several equally near entries wins.
   */
  function ClosestIndex(table: DangerTable, sample: Hsv): (k: nat)
    requires |table| > 0
    ensures IsEarliestNearest(table, sample, k)
    decreases |table|
  {
    if |table| == 1 then 0
    else
      var best := ClosestIndex(table[..|table| - 1], sample);
      if SqDist(sample, table[|table| - 1].1) < SqDist(sample, table[best].1) then |table| - 1 else best
  }

  /** There is only one earliest nearest entry, so the characterisation fixes the answer. */
  lemma EarliestNearestUnique(table: DangerTable, sample: Hsv, k1: int, k2: int)
    requires IsEarliestNearest(table, sample, k1) && IsEarliestNearest(table, sample, k2)
    ensures k1 == k2
  {
    var d1, d2 := SqDist(sample, table[k1].1), SqDist(sample, table[k2].1);
    assert d1 <= d2 && d2 <= d1;
  }

  /**
   * `convert_to_danger_level`: the level of the earliest nearest registered
   * colour. `min` of an empty dictionary raises ValueError, modelled as None.
   */
  function ConvertToDangerLevel(table: DangerTable, sample: Hsv): (r: Option<int>)
    ensures r.None? <==> |table| == 0
    ensures r.Some? ==> exists k :: IsEarliestNearest(table, sample, k) && table[k].0 == r.value
  {
    if |table| == 0 then None
    else
      var k := ClosestIndex(table, sample);
      assert IsEarliestNearest(table, sample, k);
      Some(table[k].0)
  }

  /**
   * A sample equal to the registered colour of entry `k`, where no earlier
   * entry registers the same colour, classifies to that entry's level.
   */
  lemma ExactColourClassifies(table: DangerTable, k: nat)
    requires k < |table|
    requires forall j :: 0 <= j < k ==> table[j].1 != table[k].1
    ensures ClosestIndex(table, table[k].1) == k
    ensures ConvertToDangerLevel(table, table[k].1) == Some(table[k].0)
  {
    var sample := table[k].1;
    var c := ClosestIndex(table, sample);
    SqDistZero(sample, sample);
    assert SqDist(sample, table[c].1) == 0;
    SqDistZero(sample, table[c].1);
    assert table[c].1 == sample;
    // an earlier entry with the same colour is excluded, and a later one
    // would have to be strictly nearer than entry k, which is at distance 0
    assert c >= k;
    assert SqDist(sample, table[k].1) == 0;
    assert c <= k;
  }

  // ---------------------------------------------------------------------
  // Decoding a rose
  // ---------------------------------------------------------------------

  /** numpy's reading of index `i` on an axis of length `n`: negative indices count from the end. */
  function AxisIndex(i: int, n: nat): Option<nat> {
    if 0 <= i < n then Some(i) else if i < 0 && 0 <= i + n then Some(i + n) else None
  }

  /** `hsv_array[coord[1], coord[0]]`: row `y`, column `x`; None where numpy raises IndexError. */
  function PixelAt(grid: Grid, c: Coord): Option<Hsv> {
    match AxisIndex(c.y, |grid|)
    case None => None
    case Some(row) =>
      match AxisIndex(c.x, |grid[row]|)
      case None => None
      case Some(col) => Some(grid[row][col])
  }

  /**
   * What `read_the_rose` builds from a prefix of the coordinate map: each
   * point is mapped to the classification of its pixel; a coordinate off
   * the image or an empty danger table raises, which aborts the decode.
   */
  function Decode(coords: CoordinateMap, table: DangerTable, grid: Grid): Option<map<string, int>> {
    if coords == [] then Some(map[])
    else
      var last := coords[|coords| - 1];
      match Decode(coords[..|coords| - 1], table, grid)
      case None => None
      case Some(levels) =>
        match PixelAt(grid, last.1)
        case None => None
        case Some(px) =>
          match ConvertToDangerLevel(table, px)
          case None => None
          case Some(level) => Some(levels[last.0 := level])
  }

  /** Every coordinate lies on the image, and there is a level to classify into whenever a point is sampled. */
  ghost predicate Decodable(coords: CoordinateMap, table: DangerTable, grid: Grid) {
    && (forall i :: 0 <= i < |coords| ==> PixelAt(grid, coords[i].1).Some?)
    && (|coords| == 0 || |table| > 0)
  }

  ghost function PointNames(coords: CoordinateMap): set<string> {
    set i | 0 <= i < |coords| :: coords[i].0
  }

  /** JSON object keys are unique. */
  ghost predicate DistinctPoints(coords: CoordinateMap) {
    forall i, j :: 0 <= i < j < |coords| ==> coords[i].0 != coords[j].0
  }

  lemma {:induction false} DecodeDefinedIff(coords: CoordinateMap, table: DangerTable, grid: Grid)
    ensures Decode(coords, table, grid).Some? <==> Decodable(coords, table, grid)
    decreases |coords|
  {
    if coords != [] {
      var init := coords[..|coords| - 1];
      DecodeDefinedIff(init, table, grid);
      assert forall i :: 0 <= i < |init| ==> init[i] == coords[i];
    }
  }

  /** A decoded rose has exactly the points of the coordinate map as keys: none is omitted, none added. */
  lemma {:induction false} DecodeCoversPoints(coords: CoordinateMap, table: DangerTable, grid: Grid)
    requires Decode(coords, table, grid).Some?
    ensures Decode(coords, table, grid).value.Keys == PointNames(coords)
    decreases |coords|
  {
    if coords != [] {
      var init := coords[..|coords| - 1];
      DecodeCoversPoints(init, table, grid);
      assert forall i :: 0 <= i < |init| ==> init[i] == coords[i];
      assert PointNames(coords) == PointNames(init) + {coords[|coords| - 1].0};
    }
  }

  /**
   * Each point's level is the classification of the pixel at row `y`,
   * column `x` of its coordinate; it is always a level of the table.
   */
  lemma {:induction false} DecodeLevelAt(coords: CoordinateMap, table: DangerTable, grid: Grid, i: nat)
    requires DistinctPoints(coords)
    requires i < |coords|
    requires Decode(coords, table, grid).Some?
    ensures PixelAt(grid, coords[i].1).Some?
    ensures coords[i].0 in Decode(coords, table, grid).value
    ensures var level := ConvertToDangerLevel(table, PixelAt(grid, coords[i].1).value);
      level.Some? && Decode(coords, table, grid).value[coords[i].0] == level.value
    ensures exists k :: 0 <= k < |table| && table[k].0 == Decode(coords, table, grid).value[coords[i].0]
    decreases |coords|
  {
    var init := coords[..|coords| - 1];
    assert forall j :: 0 <= j < |init| ==> init[j] == coords[j];
    if i < |coords| - 1 {
      DecodeLevelAt(init, table, grid, i);
      assert coords[i].0 != coords[|coords| - 1].0;
    }
  }

  /** `read_the_rose`: fills the `danger_levels` dictionary point by point. */
  method ReadTheRose(coords: CoordinateMap, table: DangerTable, grid: Grid) returns (levels: Option<map<string, int>>)
    ensures levels == Decode(coords, table, grid)
    ensures levels.Some? <==> Decodable(coords, table, grid)
    ensures levels.Some? ==> levels.value.Keys == PointNames(coords)
  {
    DecodeDefinedIff(coords, table, grid);
    var acc: map<string, int> := map[];
    for i := 0 to |coords|
      invariant Decode(coords[..i], table, grid) == Some(acc)
    {
      var point, c := coords[i].0, coords[i].1;
      var px := PixelAt(grid, c);
      if px.None? {
        return None;
      }
      var level := ConvertToDangerLevel(table, px.value);
      if level.None? {
        return None;
      }
      acc := acc[point := level.value];
      assert coords[..i + 1][..i] == coords[..i];
    }
    assert coords[..|coords|] == coords;
    levels := Some(acc);
    DecodeCoversPoints(coords, table, grid);
  }

  // ---------------------------------------------------------------------
  // Links
  // ---------------------------------------------------------------------

  /** A forecast link that does not start with "http" is taken relative to BASE_URL. */
  function NormalizeLink(link: string): (r: string)
    ensures StartsWith(r, "http")
    ensures StartsWith(link, "http") ==> r == link
    ensures !StartsWith(link, "http") ==> r == BASE_URL + link && StartsWith(r, BASE_URL)
  {
    assert BASE_URL[..4] == "http";
    if StartsWith(link, "http") then link
    else
      assert (BASE_URL + link)[..4] == BASE_URL[..4];
      assert (BASE_URL + link)[..|BASE_URL|] == BASE_URL;
      BASE_URL + link
  }

  lemma NormalizeLinkIdempotent(link: string)
    ensures NormalizeLink(NormalizeLink(link)) == NormalizeLink(link)
  {
  }

  /** A rose image link that starts with "/" is site-relative and gets BASE_URL in front. */
  function NormalizeRoseLink(src: string): (r: string)
    ensures !StartsWith(r, "/")
    ensures StartsWith(src, "/") ==> r == BASE_URL + src
    ensures !StartsWith(src, "/") ==> r == src
  {
    if StartsWith(src, "/") then
      assert (BASE_URL + src)[..1] == BASE_URL[..1] == "h";
      BASE_URL + src
    else src
  }

  lemma NormalizeRoseLinkIdempotent(src: string)
    ensures NormalizeRoseLink(NormalizeRoseLink(src)) == NormalizeRoseLink(src)
  {
  }

  // ---------------------------------------------------------------------
  // Scraping the paged archive
  // ---------------------------------------------------------------------

  /** A table row of an archive page (header excluded), or one whose cells cannot be read and raise. */
  datatype ArchiveRow = ArchiveRow(dateIssued: int, area: string, href: string) | Unreadable

  /**
   * One archive page as the scraper sees it: a listing, the "view-empty"
   * marker, or a request that fails. Pages beyond the given sequence are
   * taken to be "view-empty".
   */
  datatype Page = Listing(rows: seq<ArchiveRow>) | NoResults | FetchError

  /** A collected row: 'Date Issued' (a day number), 'Forecast Area', 'Link'. */
  datatype Forecast = Forecast(dateIssued: int, area: string, link: string)

  /** What one page contributes, and whether the scrape ends on it. */
  datatype PageScrape = PageScrape(stopped: bool, collected: seq<Forecast>)

  function ForecastOf(row: ArchiveRow): Forecast
    requires row.ArchiveRow?
  {
    Forecast(row.dateIssued, row.area, NormalizeLink(row.href))
  }

  /** True when the row is old enough to end the scrape (`latest_date and date <= latest_date`). */
  predicate ReachedLatest(dateIssued: int, latest: Option<int>) {
    latest.Some? && dateIssued <= latest.value
  }

  function ScrapeRows(rows: seq<ArchiveRow>, latest: Option<int>): PageScrape {
    if rows == [] then PageScrape(false, [])
    else if rows[0].Unreadable? then PageScrape(true, [])
    else if ReachedLatest(rows[0].dateIssued, latest) then PageScrape(true, [ForecastOf(rows[0])])
    else
      var rest := ScrapeRows(rows[1..], latest);
      PageScrape(rest.stopped, [ForecastOf(rows[0])] + rest.collected)
  }

  /** The rows `scrape_forecast_data` returns. */
  function Scrape(pages: seq<Page>, latest: Option<int>): seq<Forecast> {
    if pages == [] || !pages[0].Listing? then []
    else
      var here := ScrapeRows(pages[0].rows, latest);
      if here.stopped then here.collected else here.collected + Scrape(pages[1..], latest)
  }

  /** The archive rows in page order, up to the first page that is not a listing. */
  function Stream(pages: seq<Page>): seq<ArchiveRow> {
    if pages == [] || !pages[0].Listing? then [] else pages[0].rows + Stream(pages[1..])
  }

  /** The collected rows are leading archive rows, links completed, and only the last may be at or before `latest`. */
  ghost predicate CollectedPrefix(stream: seq<ArchiveRow>, got: seq<Forecast>, latest: Option<int>) {
    && |got| <= |stream|
    && (forall i :: 0 <= i < |got| ==> stream[i].ArchiveRow? && got[i] == ForecastOf(stream[i]))
    && (forall i :: 0 <= i < |got| - 1 ==> !ReachedLatest(got[i].dateIssued, latest))
  }

  /** Collection stopped at an unreadable row, or right after a row at or before `latest`. */
  ghost predicate StoppedEarly(stream: seq<ArchiveRow>, got: seq<Forecast>, latest: Option<int>) {
    || (|got| < |stream| && stream[|got|].Unreadable?)
    || (|got| > 0 && ReachedLatest(got[|got| - 1].dateIssued, latest))
  }

  /** Collection ended before the stream did only for one of the two reasons of StoppedEarly. */
  ghost predicate StoppedForAReason(stream: seq<ArchiveRow>, got: seq<Forecast>, latest: Option<int>) {
    |got| < |stream| ==> StoppedEarly(stream, got, latest)
  }

  /** None of the rows is at or before `latest`. */
  ghost predicate AllNewer(got: seq<Forecast>, latest: Option<int>) {
    forall i :: 0 <= i < |got| ==> !ReachedLatest(got[i].dateIssued, latest)
  }

  lemma {:induction false} ScrapeRowsFacts(rows: seq<ArchiveRow>, latest: Option<int>)
    ensures CollectedPrefix(rows, ScrapeRows(rows, latest).collected, latest)
    ensures !ScrapeRows(rows, latest).stopped ==>
      |ScrapeRows(rows, latest).collected| == |rows| && AllNewer(ScrapeRows(rows, latest).collected, latest)
    ensures ScrapeRows(rows, latest).stopped ==> StoppedEarly(rows, ScrapeRows(rows, latest).collected, latest)
  {
    if rows != [] && rows[0].ArchiveRow? && !ReachedLatest(rows[0].dateIssued, latest) {
      ScrapeRowsFacts(rows[1..], latest);
      var rest := ScrapeRows(rows[1..], latest);
      var first := ForecastOf(rows[0]);
      assert ScrapeRows(rows, latest) == PageScrape(rest.stopped, [first] + rest.collected);
      assert [rows[0]] + rows[1..] == rows;
      CollectedPrefixConcat([rows[0]], [first], rows[1..], rest.collected, latest);
      if rest.stopped {
        StoppedEarlyConcat([rows[0]], [first], rows[1..], rest.collected, latest);
      }
    }
  }

  lemma CollectedPrefixConcat(rows: seq<ArchiveRow>, got: seq<Forecast>, stream: seq<ArchiveRow>,
                              more: seq<Forecast>, latest: Option<int>)
    requires CollectedPrefix(rows, got, latest) && |got| == |rows| && AllNewer(got, latest)
    requires CollectedPrefix(stream, more, latest)
    ensures CollectedPrefix(rows + stream, got + more, latest)
  {
    var all, s := got + more, rows + stream;
    forall i | 0 <= i < |all|
      ensures s[i].ArchiveRow? && all[i] == ForecastOf(s[i])
    {
      if i >= |got| {
        assert all[i] == more[i - |got|] && s[i] == stream[i - |rows|];
      }
    }
    forall i | 0 <= i < |all| - 1
      ensures !ReachedLatest(all[i].dateIssued, latest)
    {
      if i >= |got| {
        assert all[i] == more[i - |got|];
      }
    }
  }

  lemma StoppedEarlyConcat(rows: seq<ArchiveRow>, got: seq<Forecast>, stream: seq<ArchiveRow>,
                           more: seq<Forecast>, latest: Option<int>)
    requires |got| == |rows|
    requires StoppedEarly(stream, more, latest)
    ensures StoppedEarly(rows + stream, got + more, latest)
  {
    var all, s := got + more, rows + stream;
    if |more| < |stream| && stream[|more|].Unreadable? {
      assert s[|all|] == stream[|more|];
    } else {
      assert all[|all| - 1] == more[|more| - 1];
    }
  }

  lemma StoppedForAReasonConcat(rows: seq<ArchiveRow>, got: seq<Forecast>, stream: seq<ArchiveRow>,
                                more: seq<Forecast>, latest: Option<int>)
    requires |got| == |rows|
    requires StoppedForAReason(stream, more, latest)
    ensures StoppedForAReason(rows + stream, got + more, latest)
  {
    if |got + more| < |rows + stream| {
      StoppedEarlyConcat(rows, got, stream, more, latest);
    }
  }

  lemma StoppedEarlyExtend(rows: seq<ArchiveRow>, got: seq<Forecast>, stream: seq<ArchiveRow>, latest: Option<int>)
    requires StoppedEarly(rows, got, latest)
    ensures StoppedEarly(rows + stream, got, latest)
  {
    if |got| < |rows| {
      assert (rows + stream)[|got|] == rows[|got|];
    }
  }

  /** The collected rows are the leading archive rows in page order, links completed. */
  lemma {:induction false} ScrapeCollectsPrefix(pages: seq<Page>, latest: Option<int>)
    ensures CollectedPrefix(Stream(pages), Scrape(pages, latest), latest)
  {
    if pages != [] && pages[0].Listing? {
      var rows := pages[0].rows;
      ScrapeRowsFacts(rows, latest);
      var here := ScrapeRows(rows, latest);
      if !here.stopped {
        ScrapeCollectsPrefix(pages[1..], latest);
        CollectedPrefixConcat(rows, here.collected, Stream(pages[1..]), Scrape(pages[1..], latest), latest);
      }
    }
  }

  /**
   * The scrape stop rule: collection ends before the archive rows run out
   * only at an unreadable row, or right after the first row at or before
   * `latest`; otherwise it runs to the first empty or failing page.
   */
  lemma {:induction false} ScrapeStopRule(pages: seq<Page>, latest: Option<int>)
    ensures StoppedForAReason(Stream(pages), Scrape(pages, latest), latest)
  {
    if pages != [] && pages[0].Listing? {
      var rows := pages[0].rows;
      ScrapeRowsFacts(rows, latest);
      var here := ScrapeRows(rows, latest);
      if !here.stopped {
        ScrapeStopRule(pages[1..], latest);
        StoppedForAReasonConcat(rows, here.collected, Stream(pages[1..]), Scrape(pages[1..], latest), latest);
      } else {
        StoppedEarlyExtend(rows, here.collected, Stream(pages[1..]), latest);
      }
    }
  }

  /** With no `latest_date`, and no unreadable row, everything up to the first empty or failing page is collected. */
  lemma ScrapeWithoutLatestTakesAll(pages: seq<Page>)
    requires forall i :: 0 <= i < |Stream(pages)| ==> Stream(pages)[i].ArchiveRow?
    ensures |Scrape(pages, None)| == |Stream(pages)|
  {
    ScrapeCollectsPrefix(pages, None);
    ScrapeStopRule(pages, None);
  }

  /** The loop invariant of ScrapePage: what is collected so far, followed by what the remaining rows give, is the page's result. */
  ghost predicate PageProgress(rows: seq<ArchiveRow>, latest: Option<int>, j: nat, collected: seq<Forecast>) {
    && j <= |rows|
    && ScrapeRows(rows, latest) ==
         PageScrape(ScrapeRows(rows[j..], latest).stopped, collected + ScrapeRows(rows[j..], latest).collected)
  }

  lemma PageProgressStep(rows: seq<ArchiveRow>, latest: Option<int>, j: nat, collected: seq<Forecast>)
    requires PageProgress(rows, latest, j, collected) && j < |rows|
    ensures rows[j].Unreadable? ==> ScrapeRows(rows, latest) == PageScrape(true, collected)
    ensures rows[j].ArchiveRow? && ReachedLatest(rows[j].dateIssued, latest) ==>
      ScrapeRows(rows, latest) == PageScrape(true, collected + [ForecastOf(rows[j])])
    ensures rows[j].ArchiveRow? && !ReachedLatest(rows[j].dateIssued, latest) ==>
      PageProgress(rows, latest, j + 1, collected + [ForecastOf(rows[j])])
  {
    assert rows[j..][0] == rows[j];
    assert rows[j..][1..] == rows[j + 1..];
    assert collected + [] == collected;
  }

  /**
   * The body of the page loop of `scrape_forecast_data` for one listing:
   * the rows it appends to `data`, and whether it leaves the function (an
   * unreadable row raises and ends the scrape; a row at or before `latest`
   * returns right after it is appended).
   */
  method ScrapePage(rows: seq<ArchiveRow>, latest: Option<int>) returns (collected: seq<Forecast>, stopped: bool)
    ensures PageScrape(stopped, collected) == ScrapeRows(rows, latest)
  {
    collected := [];
    var j := 0;
    assert rows[0..] == rows;
    while j < |rows|
      invariant PageProgress(rows, latest, j, collected)
    {
      PageProgressStep(rows, latest, j, collected);
      if rows[j].Unreadable? {
        return collected, true;
      }
      collected := collected + [Forecast(rows[j].dateIssued, rows[j].area, NormalizeLink(rows[j].href))];
      if latest.Some? && rows[j].dateIssued <= latest.value {
        return collected, true;
      }
      j := j + 1;
    }
    assert rows[j..] == [];
    stopped := false;
  }

  lemma {:induction false} ScrapeFrom(pages: seq<Page>, i: nat, latest: Option<int>)
    requires i < |pages|
    ensures Scrape(pages[i..], latest) ==
      if !pages[i].Listing? then []
      else if ScrapeRows(pages[i].rows, latest).stopped then ScrapeRows(pages[i].rows, latest).collected
      else ScrapeRows(pages[i].rows, latest).collected + Scrape(pages[i + 1..], latest)
  {
    assert pages[i..][0] == pages[i];
    assert pages[i..][1..] == pages[i + 1..];
  }

  lemma Regroup(a: seq<Forecast>, b: seq<Forecast>, c: seq<Forecast>)
    ensures a + (b + c) == (a + b) + c
    ensures a + [] == a
  {
  }

  /** `scrape_forecast_data`: walks the pages with a counter and appends to `data`. */
  method ScrapeForecastData(pages: seq<Page>, latest: Option<int>) returns (data: seq<Forecast>)
    ensures data == Scrape(pages, latest)
  {
    var page := 0;
    data := [];
    while page < |pages|
      invariant 0 <= page <= |pages|
      invariant Scrape(pages, latest) == data + Scrape(pages[page..], latest)
    {
      ScrapeFrom(pages, page, latest);
      if !pages[page].Listing? {
        // "view-empty" or a failed request: stop
        Regroup(data, [], []);
        return;
      }
      var collected, stopped := ScrapePage(pages[page].rows, latest);
      Regroup(data, collected, if stopped then [] else Scrape(pages[page + 1..], latest));
      data := data + collected;
      if stopped {
        return;
      }
      page := page + 1;
    }
    assert pages[page..] == [];
    Regroup(data, [], []);
  }

  // ---------------------------------------------------------------------
  // run
  // ---------------------------------------------------------------------

  /** A row of the output: the scraped columns plus the point columns `row.update` added. */
  datatype ForecastRecord = ForecastRecord(forecast: Forecast, levels: map<string, int>)

  /**
   * The point columns a forecast gets. `roseLinkOf` stands for
   * `get_rose_link` (None on any failure) and `download` for fetching and
   * opening the image and converting it to HSV (None when that raises). A
   * missing or empty rose link, a failed download or a failed decode adds
   * nothing.
   */
  function RoseColumns(link: string, roseLinkOf: string -> Option<string>, download: string -> Option<Grid>,
                       coords: CoordinateMap, table: DangerTable): map<string, int>
  {
    match roseLinkOf(NormalizeLink(link))
    case None => map[]
    case Some(src) =>
      if src == [] then map[]
      else
        match download(NormalizeRoseLink(src))
        case None => map[]
        case Some(grid) =>
          match Decode(coords, table, grid)
          case None => map[]
          case Some(levels) => levels
  }

  /** The body of the loop of `run` for one scraped row: find, fetch and decode its rose, and `row.update` the levels. */
  method ProcessRow(forecast: Forecast, roseLinkOf: string -> Option<string>, download: string -> Option<Grid>,
                    coords: CoordinateMap, table: DangerTable)
    returns (row: ForecastRecord)
    ensures row == ForecastRecord(forecast, RoseColumns(forecast.link, roseLinkOf, download, coords, table))
  {
    row := ForecastRecord(forecast, map[]);
    var roseLink := roseLinkOf(NormalizeLink(forecast.link));
    if roseLink.Some? && roseLink.value != [] {
      var image := download(NormalizeRoseLink(roseLink.value));
      if image.Some? {
        var decoded := ReadTheRose(coords, table, image.value);
        if decoded.Some? {
          row := row.(levels := decoded.value);
        }
      }
    }
  }

  /**
   * `run`: scrape, then decode each row's rose. Every scraped row is
   * appended exactly once and in order; a row whose rose fails is kept as
   * scraped.
   */
  method Run(latest: Option<int>, pages: seq<Page>, roseLinkOf: string -> Option<string>,
             download: string -> Option<Grid>, coords: CoordinateMap, table: DangerTable)
    returns (results: seq<ForecastRecord>)
    ensures var scraped := Scrape(pages, latest);
      && |results| == |scraped|
      && forall i :: 0 <= i < |results| ==>
           && results[i].forecast == scraped[i]
           && results[i].levels == RoseColumns(scraped[i].link, roseLinkOf, download, coords, table)
  {
    var rows := ScrapeForecastData(pages, latest);
    results := [];
    for i := 0 to |rows|
      invariant |results| == i
      invariant forall k :: 0 <= k < i ==>
        results[k] == ForecastRecord(rows[k], RoseColumns(rows[k].link, roseLinkOf, download, coords, table))
    {
      var row := ProcessRow(rows[i], roseLinkOf, download, coords, table);
      results := results + [row];
    }
  }

  /** A forecast whose rose cannot be decoded keeps only its scraped columns. */
  lemma FailedRoseKeepsRow(link: string, roseLinkOf: string -> Option<string>, download: string -> Option<Grid>,
                           coords: CoordinateMap, table: DangerTable)
    requires roseLinkOf(NormalizeLink(link)).Some?
    requires var src := roseLinkOf(NormalizeLink(link)).value;
      src != [] && download(NormalizeRoseLink(src)).Some?
      && !Decodable(coords, table, download(NormalizeRoseLink(src)).value)
    ensures RoseColumns(link, roseLinkOf, download, coords, table) == map[]
  {
    var src := roseLinkOf(NormalizeLink(link)).value;
    DecodeDefinedIff(coords, table, download(NormalizeRoseLink(src)).value);
  }
}
