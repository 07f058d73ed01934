/** The multi-account rating graph: the account list, the series built from
    the accounts' rating histories, the filters (time range, rating range,
    hidden accounts) and their application, and the colour parser. */
module MultiGraph {
  import opened Wrappers
  import opened Sequences
  import opened Text

  // ---------------------------------------------------------------- accounts

  /** The accounts to compare: the handle at the end of the page path, then
      the non-blank space-separated names typed by the user. */
  function AccountList(pathname: string, accounts: string): (r: seq<string>)
    ensures |r| >= 1
  {
    var segments := Split(pathname, '/');
    [segments[|segments| - 1]] + Filter(Split(accounts, ' '), (acc: string) => Trim(acc) != [])
  }

  /** Names typed with single spaces come back as typed, after the page's own
      handle, which holds no `/`. */
  lemma AccountListOfNames(pathname: string, names: seq<string>)
    requires |names| >= 1
    requires forall i :: 0 <= i < |names| ==> ' ' !in names[i] && Trim(names[i]) != []
    ensures AccountList(pathname, Join(names, ' ')) == [AccountList(pathname, Join(names, ' '))[0]] + names
    ensures '/' !in AccountList(pathname, Join(names, ' '))[0]
  {
    SplitJoin(names, ' ');
    FilterAll(names, (acc: string) => Trim(acc) != []);
  }

  /** A contest of an account's rating history. */
  datatype Contest = Contest(ratingUpdateTimeSeconds: int, newRating: int)

  datatype AccountData = AccountData(handle: string, contests: seq<Contest>)

  /** A point of a series: time in milliseconds and rating. */
  datatype Point = Point(time: int, rating: int)

  datatype Series = Series(labelName: string, data: seq<Point>, color: string)

  const Colors: seq<string> := [
    "#FF6B6B", "#4ECDC4", "#45B7D1", "#96CEB4", "#FFEAA7",
    "#DDA0DD", "#98D8C8", "#F7DC6F", "#BB8FCE", "#85C1E9"]

  function PointOf(c: Contest): Point {
    Point(c.ratingUpdateTimeSeconds * 1000, c.newRating)
  }

  /** One series per account, labelled with its handle, coloured in turn from
      the ten colours. */
  function BuildSeries(accountData: seq<AccountData>): (r: seq<Series>)
    ensures |r| == |accountData|
  {
    seq(|accountData|, i requires 0 <= i < |accountData| =>
      Series(accountData[i].handle, Map(accountData[i].contests, PointOf), Colors[i % |Colors|]))
  }

  /** Each series shows its account's history under its handle. */
  lemma BuildSeriesLabels(accountData: seq<AccountData>)
    ensures forall i :: 0 <= i < |accountData| ==>
      BuildSeries(accountData)[i].labelName == accountData[i].handle
      && |BuildSeries(accountData)[i].data| == |accountData[i].contests|
  {
  }

  /** Two accounts share a colour exactly when their positions agree modulo
      ten: colours repeat every ten accounts, and the first ten all differ. */
  lemma BuildSeriesColors(accountData: seq<AccountData>)
    ensures forall i, j :: 0 <= i < |accountData| && 0 <= j < |accountData| ==>
      (BuildSeries(accountData)[i].color == BuildSeries(accountData)[j].color <==> i % 10 == j % 10)
  {
    var r := BuildSeries(accountData);
    assert |Colors| == 10;
    ColorsDistinct();
    forall i, j | 0 <= i < |accountData| && 0 <= j < |accountData|
      ensures r[i].color == r[j].color <==> i % 10 == j % 10
    {
      assert r[i].color == Colors[i % 10] && r[j].color == Colors[j % 10];
      if i % 10 != j % 10 {
        assert Colors[i % 10] != Colors[j % 10];
      }
    }
  }

  /** The ten colours differ from one another. */
  lemma ColorsDistinct()
    ensures forall i, j :: 0 <= i < j < |Colors| ==> Colors[i] != Colors[j]
  {
    forall i, j | 0 <= i < j < |Colors| ensures Colors[i] != Colors[j] {
      assert Colors[i][4] != Colors[j][4];
    }
  }

  // ----------------------------------------------------------------- filters

  /** The filter state; `None` is the `null` of an unset custom date. */
  datatype Filters = Filters(timeRange: string, ratingRange: string, showPoints: bool, showGrid: bool,
                             hiddenAccounts: set<string>, customDateFrom: Option<int>, customDateTo: Option<int>)

  const DefaultFilters: Filters := Filters("all", "all", true, true, {}, None, None)

  const YearMs: int := 365 * 24 * 60 * 60 * 1000

  const DayMs: int := 24 * 60 * 60 * 1000

  /** A JavaScript `x || d` on an optional number: `null` and `0` give `d`. */
  function OrElse(x: Option<int>, d: int): int {
    if x.Some? && x.value != 0 then x.value else d
  }

  /** The start of a preset time range (0 for no limit). */
  function TimeThreshold(timeRange: string, now: int): int {
    if timeRange == "1y" then now - YearMs
    else if timeRange == "2y" then now - 2 * YearMs
    else if timeRange == "3y" then now - 3 * YearMs
    else 0
  }

  /** The time test of a point. */
  predicate TimeOk(f: Filters, now: int, time: int) {
    if f.timeRange == "custom" then OrElse(f.customDateFrom, 0) <= time <= OrElse(f.customDateTo, now)
    else
      var threshold := TimeThreshold(f.timeRange, now);
      threshold == 0 || time >= threshold
  }

  /** The preset ranges are nested, each within the next and all within
      "all"; a custom range with both ends set keeps exactly the points
      between them, ends included. */
  lemma TimeRangesNested(f: Filters, now: int, time: int)
    requires now > 3 * YearMs
    ensures TimeOk(f.(timeRange := "1y"), now, time) ==> TimeOk(f.(timeRange := "2y"), now, time)
    ensures TimeOk(f.(timeRange := "2y"), now, time) ==> TimeOk(f.(timeRange := "3y"), now, time)
    ensures TimeOk(f.(timeRange := "all"), now, time)
    ensures (&& f.timeRange == "custom"
             && f.customDateFrom.Some? && f.customDateFrom.value != 0
             && f.customDateTo.Some? && f.customDateTo.value != 0) ==>
      (TimeOk(f, now, time) <==> f.customDateFrom.value <= time <= f.customDateTo.value)
  {
  }

  /** A rating range; `max` is `None` for no upper bound. */
  datatype RatingRange = RatingRange(min: int, max: Option<int>)

  function RatingRangeOf(name: string): RatingRange {
    if name == "newbie" then RatingRange(0, Some(1199))
    else if name == "pupil" then RatingRange(1200, Some(1399))
    else if name == "specialist" then RatingRange(1400, Some(1599))
    else if name == "expert" then RatingRange(1600, Some(1899))
    else if name == "cm" then RatingRange(1900, Some(2099))
    else if name == "master" then RatingRange(2100, Some(2299))
    else if name == "igm" then RatingRange(2400, None)
    else RatingRange(0, None)
  }

  predicate InRange(r: RatingRange, rating: int) {
    r.min <= rating && (r.max.None? || rating <= r.max.value)
  }

  predicate PointOk(f: Filters, now: int, p: Point) {
    TimeOk(f, now, p.time) && InRange(RatingRangeOf(f.ratingRange), p.rating)
  }

  const RangeNames: seq<string> := ["newbie", "pupil", "specialist", "expert", "cm", "master", "igm"]

  /** The named rating ranges are consecutive and do not overlap, except that
      nothing but "all" holds the ratings 2300 to 2399. */
  lemma RatingRangesDisjoint(rating: int)
    ensures forall i, j :: 0 <= i < j < |RangeNames| ==>
      !(InRange(RatingRangeOf(RangeNames[i]), rating) && InRange(RatingRangeOf(RangeNames[j]), rating))
    ensures 0 <= rating < 2300 || 2400 <= rating <==> exists i :: 0 <= i < |RangeNames| && InRange(RatingRangeOf(RangeNames[i]), rating)
    ensures rating >= 0 ==> InRange(RatingRangeOf("all"), rating)
  {
    if 0 <= rating < 2300 || 2400 <= rating {
      var i := if rating < 1200 then 0 else if rating < 1400 then 1 else if rating < 1600 then 2
        else if rating < 1900 then 3 else if rating < 2100 then 4 else if rating < 2300 then 5 else 6;
      assert InRange(RatingRangeOf(RangeNames[i]), rating);
    }
  }

  /** Series and account data after filtering. */
  datatype FilteredData = FilteredData(accountData: seq<AccountData>, series: seq<Series>)

  function VisibleSeries(f: Filters, series: seq<Series>): seq<Series> {
    Filter(series, (s: Series) => s.labelName !in f.hiddenAccounts)
  }

  function TrimSeries(f: Filters, now: int, s: Series): Series {
    s.(data := Filter(s.data, (p: Point) => PointOk(f, now, p)))
  }

  /** `applyFiltersToData` at time `now`: hidden series go, the remaining
      series keep the points that pass the time and rating tests, series left
      empty go, and the accounts kept are those not hidden that still have a
      series. */
  function ApplyFilters(f: Filters, accountData: seq<AccountData>, series: seq<Series>, now: int): FilteredData {
    var filteredSeries := Filter(Map(VisibleSeries(f, series), (s: Series) => TrimSeries(f, now, s)), (s: Series) => |s.data| > 0);
    var filteredAccounts := Filter(accountData, (a: AccountData) =>
      a.handle !in f.hiddenAccounts && exists k :: 0 <= k < |filteredSeries| && filteredSeries[k].labelName == a.handle);
    FilteredData(filteredAccounts, filteredSeries)
  }

  /** No more series or accounts come out than go in, and every series kept
      has points and is not hidden. */
  lemma ApplyFiltersShape(f: Filters, accountData: seq<AccountData>, series: seq<Series>, now: int)
    ensures var r := ApplyFilters(f, accountData, series, now);
      && |r.series| <= |series| && |r.accountData| <= |accountData|
      && forall k :: 0 <= k < |r.series| ==> |r.series[k].data| > 0 && r.series[k].labelName !in f.hiddenAccounts
  {
  }

  /** Every given series with only its passing points. */
  function TrimmedSeries(f: Filters, now: int, series: seq<Series>): seq<Series> {
    Map(series, (s: Series) => TrimSeries(f, now, s))
  }

  /** A series kept by the filters: not hidden, not empty, every point passing
      both tests, and exactly the passing points of a series given. */
  predicate KeptSeries(f: Filters, now: int, series: seq<Series>, s: Series) {
    && s.labelName !in f.hiddenAccounts
    && |s.data| > 0
    && (forall k :: 0 <= k < |s.data| ==> PointOk(f, now, s.data[k]))
    && s in TrimmedSeries(f, now, series)
  }

  lemma KeptSeriesSound(f: Filters, accountData: seq<AccountData>, series: seq<Series>, now: int, k: int)
    requires 0 <= k < |ApplyFilters(f, accountData, series, now).series|
    ensures KeptSeries(f, now, series, ApplyFilters(f, accountData, series, now).series[k])
  {
    var visible := VisibleSeries(f, series);
    var trimmed := Map(visible, (s: Series) => TrimSeries(f, now, s));
    var out := ApplyFilters(f, accountData, series, now).series;
    assert out[k] in trimmed;
    var m :| 0 <= m < |trimmed| && trimmed[m] == out[k];
    assert visible[m] in series;
    var j :| 0 <= j < |series| && series[j] == visible[m];
    assert TrimmedSeries(f, now, series)[j] == out[k];
  }

  lemma KeptSeriesComplete(f: Filters, accountData: seq<AccountData>, series: seq<Series>, now: int, j: int)
    requires 0 <= j < |series| && series[j].labelName !in f.hiddenAccounts && |TrimSeries(f, now, series[j]).data| > 0
    ensures TrimSeries(f, now, series[j]) in ApplyFilters(f, accountData, series, now).series
  {
    var visible := VisibleSeries(f, series);
    var trimmed := Map(visible, (s: Series) => TrimSeries(f, now, s));
    var out := ApplyFilters(f, accountData, series, now).series;
    FilterMultiset(series, (s: Series) => s.labelName !in f.hiddenAccounts, series[j]);
    assert series[j] in multiset(visible);
    var m :| 0 <= m < |visible| && visible[m] == series[j];
    assert trimmed[m] == TrimSeries(f, now, series[j]);
    FilterMultiset(trimmed, (s: Series) => |s.data| > 0, trimmed[m]);
    assert trimmed[m] in multiset(out);
  }

  /** The series kept are exactly the trimmed series of visible accounts that
      still have a point. */
  lemma ApplyFiltersSeries(f: Filters, accountData: seq<AccountData>, series: seq<Series>, now: int)
    ensures forall k :: 0 <= k < |ApplyFilters(f, accountData, series, now).series| ==>
      KeptSeries(f, now, series, ApplyFilters(f, accountData, series, now).series[k])
    ensures forall j :: 0 <= j < |series| && series[j].labelName !in f.hiddenAccounts && |TrimSeries(f, now, series[j]).data| > 0 ==>
      TrimSeries(f, now, series[j]) in ApplyFilters(f, accountData, series, now).series
  {
    forall k | 0 <= k < |ApplyFilters(f, accountData, series, now).series|
      ensures KeptSeries(f, now, series, ApplyFilters(f, accountData, series, now).series[k])
    {
      KeptSeriesSound(f, accountData, series, now, k);
    }
    forall j | 0 <= j < |series| && series[j].labelName !in f.hiddenAccounts && |TrimSeries(f, now, series[j]).data| > 0
      ensures TrimSeries(f, now, series[j]) in ApplyFilters(f, accountData, series, now).series
    {
      KeptSeriesComplete(f, accountData, series, now, j);
    }
  }

  /** An account not hidden that has a series in `r`. */
  predicate ShownAccount(f: Filters, r: FilteredData, a: AccountData) {
    a.handle !in f.hiddenAccounts && exists m :: 0 <= m < |r.series| && r.series[m].labelName == a.handle
  }

  /** Every account kept is not hidden and has a kept series; every account
      not hidden that has one is kept. */
  lemma ApplyFiltersAccounts(f: Filters, accountData: seq<AccountData>, series: seq<Series>, now: int)
    ensures forall k :: 0 <= k < |ApplyFilters(f, accountData, series, now).accountData| ==>
      ShownAccount(f, ApplyFilters(f, accountData, series, now), ApplyFilters(f, accountData, series, now).accountData[k])
      && ApplyFilters(f, accountData, series, now).accountData[k] in accountData
    ensures forall i :: 0 <= i < |accountData| && ShownAccount(f, ApplyFilters(f, accountData, series, now), accountData[i]) ==>
      accountData[i] in ApplyFilters(f, accountData, series, now).accountData
  {
    var r := ApplyFilters(f, accountData, series, now);
    var keep := (a: AccountData) => a.handle !in f.hiddenAccounts && exists k :: 0 <= k < |r.series| && r.series[k].labelName == a.handle;
    assert r.accountData == Filter(accountData, keep);
    forall i | 0 <= i < |accountData| && keep(accountData[i]) ensures accountData[i] in r.accountData {
      FilterMultiset(accountData, keep, accountData[i]);
      assert accountData[i] in multiset(r.accountData);
    }
  }

  /** With the default filters only points with negative ratings are dropped:
      every series of non-negative ratings is kept whole, in order. */
  lemma DefaultFiltersKeepAll(accountData: seq<AccountData>, series: seq<Series>, now: int)
    requires forall j :: 0 <= j < |series| ==> |series[j].data| > 0
    requires forall j, k :: 0 <= j < |series| && 0 <= k < |series[j].data| ==> series[j].data[k].rating >= 0
    ensures ApplyFilters(DefaultFilters, accountData, series, now).series == series
  {
    var f := DefaultFilters;
    FilterAll(series, (s: Series) => s.labelName !in f.hiddenAccounts);
    forall j | 0 <= j < |series| ensures TrimSeries(f, now, series[j]) == series[j] {
      FilterAll(series[j].data, (p: Point) => PointOk(f, now, p));
    }
    var trimmed := Map(series, (s: Series) => TrimSeries(f, now, s));
    assert trimmed == series;
    FilterAll(trimmed, (s: Series) => |s.data| > 0);
  }

  /** `hiddenAccounts` after a legend click on `account`. */
  function Toggled(hidden: set<string>, account: string): set<string> {
    if account in hidden then hidden - {account} else hidden + {account}
  }

  /** A click flips the clicked account's visibility and no other; a second
      click restores the set. */
  lemma ToggleFlips(hidden: set<string>, account: string)
    ensures account in Toggled(hidden, account) <==> account !in hidden
    ensures forall other :: other != account ==> (other in Toggled(hidden, account) <==> other in hidden)
    ensures Toggled(Toggled(hidden, account), account) == hidden
  {
  }

  // -------------------------------------------------------------- the graph

  /** The graph's filter state, changed by the filter controls, the reset
      button and legend clicks. */
  class GraphFilters {
    var currentFilters: Filters

    constructor ()
      ensures currentFilters == DefaultFilters
    {
      currentFilters := DefaultFilters;
    }

    /** The legend click handler: shows a hidden account, hides a shown one. */
    method ToggleAccount(account: string)
      modifies this
      ensures currentFilters == old(currentFilters).(hiddenAccounts := Toggled(old(currentFilters).hiddenAccounts, account))
    {
      if account in currentFilters.hiddenAccounts {
        currentFilters := currentFilters.(hiddenAccounts := currentFilters.hiddenAccounts - {account});
      } else {
        currentFilters := currentFilters.(hiddenAccounts := currentFilters.hiddenAccounts + {account});
      }
    }

    /** `resetFilters`: every filter back to its initial value, no account
      hidden. */
    method ResetFilters()
      modifies this
      ensures currentFilters == DefaultFilters
    {
      currentFilters := Filters("all", "all", true, true, {}, None, None);
    }

    /** `updateFilters`: reads the controls that exist (`None` for a missing
      control; a date is `None` also when it is empty, and otherwise the
      start of that day in milliseconds). A custom range takes both dates,
      the second extended to the end of its day, or falls back to "all"
      without them; any other range clears the custom dates. */
    method UpdateFilters(timeFilter: Option<string>, ratingFilter: Option<string>, showPoints: Option<bool>,
                         showGrid: Option<bool>, dateFrom: Option<int>, dateTo: Option<int>)
      modifies this
      ensures currentFilters.hiddenAccounts == old(currentFilters).hiddenAccounts
      ensures currentFilters.ratingRange == (if ratingFilter.Some? then ratingFilter.value else old(currentFilters).ratingRange)
      ensures currentFilters.showPoints == (if showPoints.Some? then showPoints.value else old(currentFilters).showPoints)
      ensures currentFilters.showGrid == (if showGrid.Some? then showGrid.value else old(currentFilters).showGrid)
      ensures timeFilter == Some("custom") && dateFrom.Some? && dateTo.Some? ==>
        currentFilters.timeRange == "custom"
        && currentFilters.customDateFrom == dateFrom
        && currentFilters.customDateTo == Some(dateTo.value + DayMs - 1)
      ensures timeFilter == Some("custom") && (dateFrom.None? || dateTo.None?) ==>
        currentFilters.timeRange == "all"
        && currentFilters.customDateFrom == old(currentFilters).customDateFrom
        && currentFilters.customDateTo == old(currentFilters).customDateTo
      ensures timeFilter != Some("custom") ==>
        currentFilters.timeRange == (if timeFilter.Some? then timeFilter.value else old(currentFilters).timeRange)
        && currentFilters.customDateFrom.None? && currentFilters.customDateTo.None?
    {
      var f := currentFilters.(
        timeRange := if timeFilter.Some? then timeFilter.value else currentFilters.timeRange,
        ratingRange := if ratingFilter.Some? then ratingFilter.value else currentFilters.ratingRange,
        showPoints := if showPoints.Some? then showPoints.value else currentFilters.showPoints,
        showGrid := if showGrid.Some? then showGrid.value else currentFilters.showGrid);
      var custom := timeFilter == Some("custom");
      if custom {
        if dateFrom.Some? && dateTo.Some? {
          f := f.(customDateFrom := Some(dateFrom.value), customDateTo := Some(dateTo.value + (DayMs - 1)));
        } else {
          f := f.(timeRange := "all");
        }
      } else {
        f := f.(customDateFrom := None, customDateTo := None);
      }
      currentFilters := f;
    }
  }

  // ----------------------------------------------------------------- colours

  datatype Rgb = Rgb(r: int, g: int, b: int)

  const FallbackRgb: Rgb := Rgb(102, 126, 234)

  /** Six hex digits. */
  predicate HexDigits(s: string) {
    |s| == 6 && forall k :: 0 <= k < 6 ==> IsHexDigit(s[k])
  }

  function HexPair(hi: char, lo: char): (v: int)
    requires IsHexDigit(hi) && IsHexDigit(lo)
    ensures 0 <= v <= 255
  {
    16 * HexValue(hi) + HexValue(lo)
  }

  /** `hexToRgb`: six hex digits in either case, after an optional `#`, read
      as three components; anything else gives the fallback colour. */
  function HexToRgb(hex: string): (c: Rgb)
    ensures 0 <= c.r <= 255 && 0 <= c.g <= 255 && 0 <= c.b <= 255
  {
    var digits := if |hex| > 0 && hex[0] == '#' then hex[1..] else hex;
    if HexDigits(digits) then
      Rgb(HexPair(digits[0], digits[1]), HexPair(digits[2], digits[3]), HexPair(digits[4], digits[5]))
    else FallbackRgb
  }

  /** The lower-case hex digit of `d`. */
  function HexDigitChar(d: nat): (c: char)
    requires d < 16
    ensures IsHexDigit(c) && HexValue(c) == d
  {
    if d < 10 then DigitChar(d) else ('a' as int + d - 10) as char
  }

  function HexByte(v: nat): string
    requires v <= 255
  {
    [HexDigitChar(v / 16), HexDigitChar(v % 16)]
  }

  /** `#rrggbb` in lower case. */
  function RgbToHex(c: Rgb): string
    requires 0 <= c.r <= 255 && 0 <= c.g <= 255 && 0 <= c.b <= 255
  {
    "#" + HexByte(c.r) + HexByte(c.g) + HexByte(c.b)
  }

  /** Every colour printed as `#rrggbb`, or without its `#`, reads back as
      itself. */
  lemma HexRoundTrip(c: Rgb)
    requires 0 <= c.r <= 255 && 0 <= c.g <= 255 && 0 <= c.b <= 255
    ensures HexToRgb(RgbToHex(c)) == c
    ensures HexToRgb(RgbToHex(c)[1..]) == c
  {
    var h := RgbToHex(c);
    assert h[1..] == HexByte(c.r) + HexByte(c.g) + HexByte(c.b);
    assert HexDigits(h[1..]);
  }

  /** The accepted inputs: with digits other than six hex digits (after an
      optional `#`) the result is the fallback colour. */
  lemma HexToRgbRejects(hex: string)
    requires !HexDigits(hex) && !(|hex| > 0 && hex[0] == '#' && HexDigits(hex[1..]))
    ensures HexToRgb(hex) == FallbackRgb
  {
  }
}
