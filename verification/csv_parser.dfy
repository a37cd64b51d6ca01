/** The ingestion pipeline of `CsvParserUtil`: a Johns Hopkins time-series
    table (one row per province or state, one column per reporting date,
    cumulative confirmed cases) becomes one `CovidData` record per country.

    The tab-delimited tokeniser is outside this model: the table arrives as
    its header names and its records, each record a map from header name to
    cell. A record that has no cell for a name it is asked for is one whose
    `CSVRecord.get` throws. */
module CsvParser {
  import opened Wrappers
  import opened JavaLang
  import opened CovidModel

  type Row = map<string, string>

  const ProvinceState: string := "Province/State"
  const CountryRegion: string := "Country/Region"
  const Lat: string := "Lat"
  const Long: string := "Long"
  const NotAvailable: string := "N/A"
  const Unknown: string := "Unknown"

  // ---------------------------------------------------------------------------
  // Header classifier

  /** One of the four metadata headers, compared ignoring case. */
  predicate IsMetadataColumn(h: string) {
    || EqualsIgnoreCase(h, ProvinceState)
    || EqualsIgnoreCase(h, CountryRegion)
    || EqualsIgnoreCase(h, Lat)
    || EqualsIgnoreCase(h, Long)
  }

  /** `identifyDateColumns`: the headers that are not metadata headers. */
  function IdentifyDateColumns(headers: seq<string>): (dates: seq<string>)
    ensures |dates| <= |headers|
    ensures forall i | 0 <= i < |dates| :: dates[i] in headers && !IsMetadataColumn(dates[i])
  {
    if headers == [] then []
    else
      var init := headers[..|headers| - 1];
      var h := headers[|headers| - 1];
      if IsMetadataColumn(h) then IdentifyDateColumns(init) else IdentifyDateColumns(init) + [h]
  }

  /** Every header that is not a metadata header is a date column, kept as
      often as it occurs, and no metadata header is. */
  lemma {:induction false} DateColumnsAreDataHeaders(headers: seq<string>)
    ensures forall h :: multiset(IdentifyDateColumns(headers))[h]
                        == if IsMetadataColumn(h) then 0 else multiset(headers)[h]
  {
    if headers != [] {
      var init := headers[..|headers| - 1];
      assert headers == init + [headers[|headers| - 1]];
      DateColumnsAreDataHeaders(init);
    }
  }

  /** The classifier keeps the headers' left-to-right order: it distributes
      over concatenation, so it is the order-preserving filter. */
  lemma {:induction false} DateColumnsOfConcat(a: seq<string>, b: seq<string>)
    ensures IdentifyDateColumns(a + b) == IdentifyDateColumns(a) + IdentifyDateColumns(b)
    decreases |b|
  {
    if b == [] {
      assert a + b == a;
    } else {
      var init := b[..|b| - 1];
      assert a + b == (a + init) + [b[|b| - 1]];
      assert (a + b)[..|a + b| - 1] == a + init;
      DateColumnsOfConcat(a, init);
    }
  }

  // ---------------------------------------------------------------------------
  // Latest and previous date columns

  /** The two date columns whose cells are read; null when absent. */
  datatype Selection = Selection(latest: Option<string>, previous: Option<string>)

  /** The latest date is the last date column and the previous one the
      second-last; each is null when there are too few date columns. */
  function SelectRecentDates(dates: seq<string>): (sel: Selection)
    ensures sel.latest.Some? <==> |dates| >= 1
    ensures sel.previous.Some? <==> |dates| >= 2
    ensures sel.latest.Some? ==> sel.latest.value == dates[|dates| - 1]
    ensures sel.previous.Some? ==> sel.previous.value == dates[|dates| - 2]
  {
    Selection(
      if |dates| == 0 then None else Some(dates[|dates| - 1]),
      if |dates| < 2 then None else Some(dates[|dates| - 2]))
  }

  /** The selection made from a header row. */
  function SelectFromHeaders(headers: seq<string>): Selection {
    SelectRecentDates(IdentifyDateColumns(headers))
  }

  /** Appending a date column makes it the latest and demotes the former
      latest to previous; appending a metadata column changes nothing. */
  lemma AppendedHeaderShiftsSelection(headers: seq<string>, h: string)
    ensures IsMetadataColumn(h) ==> SelectFromHeaders(headers + [h]) == SelectFromHeaders(headers)
    ensures !IsMetadataColumn(h) ==>
      SelectFromHeaders(headers + [h]) == Selection(Some(h), SelectFromHeaders(headers).latest)
  {
    DateColumnsOfConcat(headers, [h]);
    assert IdentifyDateColumns([h]) == IdentifyDateColumns([] + [h]);
    assert [h][..0] == [];
  }

  // ---------------------------------------------------------------------------
  // parseLong

  /** `parseLong`: null, blank and "N/A" in any case are 0; otherwise commas
      are removed, the text trimmed and parsed as a `long`; a text that does
      not parse is 0. It never fails. */
  function ParseCount(value: Option<string>): (n: int)
    ensures InLongRange(n)
    ensures value.None? ==> n == 0
    ensures value.Some? && (IsBlank(value.value) || EqualsIgnoreCase(value.value, NotAvailable)) ==> n == 0
  {
    match value
    case None => 0
    case Some(v) =>
      if IsBlank(v) || EqualsIgnoreCase(v, NotAvailable) then 0
      else JavaLang.ParseLong(Trim(RemoveCommas(v))).GetOr(0)
  }

  lemma CaseKeyOfSlash(c: char)
    ensures CaseKey(c) == '/' <==> c == '/'
  {
  }

  /** The blank and "N/A" guards only shortcut inputs that would fail to
      parse anyway: `parseLong` is "strip commas, trim, parse, else 0". */
  lemma ParseCountIsParseOrZero(s: string)
    ensures ParseCount(Some(s)) == JavaLang.ParseLong(Trim(RemoveCommas(s))).GetOr(0)
  {
    if IsBlank(s) {
      BlankFailsToParse(s);
    } else if EqualsIgnoreCase(s, NotAvailable) {
      NotAvailableFailsToParse(s);
    }
  }

  lemma BlankFailsToParse(s: string)
    requires IsBlank(s)
    ensures JavaLang.ParseLong(Trim(RemoveCommas(s))) == None
  {
    var r := RemoveCommas(s);
    RemoveCommasKeepsOtherChars(s);
    forall i | 0 <= i < |r|
      ensures IsTrimmable(r[i])
    {
      assert r[i] != ',' && multiset(r)[r[i]] > 0;
      assert r[i] in s;
    }
    assert Trim(r) == [];
  }

  lemma NotAvailableFailsToParse(s: string)
    requires EqualsIgnoreCase(s, NotAvailable)
    ensures JavaLang.ParseLong(Trim(RemoveCommas(s))) == None
  {
    assert |s| == 3;
    assert CaseKey(s[0]) == 'n' && CaseKey(s[2]) == 'a';
    assert s[0] in "nN" && s[2] in "aA";
    CaseKeyOfSlash(s[1]);
    assert s[1] == '/';
    assert ',' !in s;
    TrimOfUntrimmed(s);
    assert Trim(RemoveCommas(s)) == s;
  }

  /** Every `long` written in decimal reads back as itself. */
  lemma ParseCountOfDecimal(n: int)
    requires InLongRange(n)
    ensures ParseCount(Some(LongToString(n))) == n
  {
    var s := LongToString(n);
    var digits := NatToString(if n < 0 then -n else n);
    assert s == if n < 0 then "-" + digits else digits;
    assert s[|s| - 1] == digits[|digits| - 1];
    assert ',' !in s by {
      forall i | 0 <= i < |s|
        ensures s[i] != ','
      {
        if n < 0 && i > 0 {
          assert s[i] == digits[i - 1];
        }
      }
    }
    TrimOfUntrimmed(s);
    ParseCountIsParseOrZero(s);
    ParseLongOfLongToString(n);
  }

  /** Commas are ignored wherever they stand: a text reads as the same
      count with or without them. */
  lemma ParseCountIgnoresCommas(s: string)
    ensures ParseCount(Some(s)) == ParseCount(Some(RemoveCommas(s)))
  {
    ParseCountIsParseOrZero(s);
    ParseCountIsParseOrZero(RemoveCommas(s));
  }

  /** A `long` written with thousands separators, or any other commas,
      reads back as itself: "1,234,567" is 1234567. */
  lemma ParseCountOfGroupedDecimal(s: string, n: int)
    requires InLongRange(n)
    requires RemoveCommas(s) == LongToString(n)
    ensures ParseCount(Some(s)) == n
  {
    ParseCountIgnoresCommas(s);
    ParseCountOfDecimal(n);
  }

  /** Text that is not a number reads as 0. */
  lemma ParseCountOfGarbage()
    ensures ParseCount(Some("abc")) == 0
  {
    assert TrimStart("abc") == "abc";
    assert Trim(RemoveCommas("abc")) == "abc";
  }

  // ---------------------------------------------------------------------------
  // Reading one record

  /** What one record contributes: its country and the two parsed counts, or
      nothing when one of its lookups throws. */
  datatype RowOutcome = Accepted(country: string, latestCases: int, previousCases: int) | Skipped

  /** The count in column `column`, 0 when no such column was selected, and
      `None` when the record has no cell for it. */
  function ReadCount(row: Row, column: Option<string>): (n: Option<int>)
    ensures column.None? ==> n == Some(0)
    ensures column.Some? ==> (n.Some? <==> column.value in row)
    ensures column.Some? && column.value in row ==> n == Some(ParseCount(Some(row[column.value])))
  {
    match column
    case None => Some(0)
    case Some(c) => if c in row then Some(ParseCount(Some(row[c]))) else None
  }

  /** The lookups of one loop iteration: a record is skipped exactly when it
      lacks the country cell or the cell of a selected date column. A cell
      that is not a number is no reason to skip: it reads as 0. */
  function ReadRow(row: Row, sel: Selection): (o: RowOutcome)
    ensures o.Accepted? <==>
      && CountryRegion in row
      && (sel.latest.Some? ==> sel.latest.value in row)
      && (sel.previous.Some? ==> sel.previous.value in row)
    ensures o.Accepted? ==> o.country == row[CountryRegion]
    ensures o.Accepted? ==> Some(o.latestCases) == ReadCount(row, sel.latest)
    ensures o.Accepted? ==> Some(o.previousCases) == ReadCount(row, sel.previous)
  {
    if CountryRegion !in row then Skipped
    else
      var latest := ReadCount(row, sel.latest);
      var previous := ReadCount(row, sel.previous);
      if latest.None? || previous.None? then Skipped
      else Accepted(row[CountryRegion], latest.value, previous.value)
  }

  // ---------------------------------------------------------------------------
  // Metric estimator

  const DeathsPercent: nat := 2
  const RecoveredPercent: nat := 90
  const ActivePercent: nat := 8
  const CriticalPercent: nat := 1

  /** `(long)(x * p / 100)`: `p` percent of `x`, truncated toward zero. */
  function Estimate(x: int, percent: nat): (e: int)
    ensures x * percent >= 0 ==> 0 <= e * 100 <= x * percent < e * 100 + 100
    ensures x * percent < 0 ==> e * 100 - 100 < x * percent <= e * 100 <= 0
  {
    TruncDiv(x * percent, 100)
  }

  /** For a non-negative total the estimates are ordered, and deaths,
      recovered and active together account for the total up to two cases
      lost to truncation. */
  lemma EstimateBounds(x: int)
    requires x >= 0
    ensures 0 <= Estimate(x, CriticalPercent) <= Estimate(x, DeathsPercent)
    ensures Estimate(x, DeathsPercent) <= Estimate(x, ActivePercent) <= Estimate(x, RecoveredPercent) <= x
    ensures x - 2 <= Estimate(x, DeathsPercent) + Estimate(x, RecoveredPercent) + Estimate(x, ActivePercent) <= x
  {
  }

  /** Truncation toward zero makes every estimate odd in its input: a negative
      count yields the negated estimate of its magnitude. */
  lemma EstimateIsOdd(x: int, percent: nat)
    ensures Estimate(-x, percent) == -Estimate(x, percent)
  {
    assert -x * percent == -(x * percent);
    TruncDivIsOdd(x * percent, 100);
  }

  /** Running totals of one country. */
  datatype Totals = Totals(totalCases: int, newCases: int) {
    function Plus(other: Totals): Totals {
      Totals(totalCases + other.totalCases, newCases + other.newCases)
    }
  }

  const Zero: Totals := Totals(0, 0)

  /** What one accepted record adds: its latest count, and latest minus
      previous (negative after a downward correction, and kept so). */
  function RowTotals(latestCases: int, previousCases: int): Totals {
    Totals(latestCases, latestCases - previousCases)
  }

  /** The `lastUpdated` label: the latest date header, or "Unknown". */
  function LastUpdatedLabel(latestDate: Option<string>): string {
    latestDate.GetOr(Unknown)
  }

  /** The record a country with totals `t` ends up as: every estimate
      recomputed from the totals. */
  function Summary(country: string, t: Totals, lastUpdated: string): CovidData {
    CovidData(
      Some(country),
      Some(t.totalCases),
      Some(t.newCases),
      Some(Estimate(t.totalCases, DeathsPercent)),
      Some(Estimate(t.newCases, DeathsPercent)),
      Some(Estimate(t.totalCases, RecoveredPercent)),
      Some(Estimate(t.totalCases, ActivePercent)),
      Some(Estimate(t.totalCases, CriticalPercent)),
      Some(lastUpdated))
  }

  /** The five estimated fields equal the estimates of the record's current totals. */
  predicate EstimatesMatchTotals(d: CovidData) {
    && d.totalCases.Some? && d.newCases.Some?
    && d.totalDeaths == Some(Estimate(d.totalCases.value, DeathsPercent))
    && d.newDeaths == Some(Estimate(d.newCases.value, DeathsPercent))
    && d.totalRecovered == Some(Estimate(d.totalCases.value, RecoveredPercent))
    && d.activeCases == Some(Estimate(d.totalCases.value, ActivePercent))
    && d.criticalCases == Some(Estimate(d.totalCases.value, CriticalPercent))
  }

  /** `createCovidData`: the first record of a country sets the totals to its
      own latest count and delta, the label to the latest date or "Unknown",
      and the estimates from those totals. */
  function CreateCovidData(country: string, latestCases: int, previousCases: int,
                           latestDate: Option<string>): (d: CovidData)
    ensures d.country == Some(country)
    ensures d.totalCases == Some(latestCases)
    ensures d.newCases == Some(latestCases - previousCases)
    ensures d.lastUpdated == Some(LastUpdatedLabel(latestDate))
    ensures EstimatesMatchTotals(d)
  {
    Empty().(
      country := Some(country),
      totalCases := Some(latestCases),
      newCases := Some(latestCases - previousCases),
      lastUpdated := Some(if latestDate.Some? then latestDate.value else Unknown),
      totalDeaths := Some(Estimate(latestCases, DeathsPercent)),
      newDeaths := Some(Estimate(latestCases - previousCases, DeathsPercent)),
      totalRecovered := Some(Estimate(latestCases, RecoveredPercent)),
      activeCases := Some(Estimate(latestCases, ActivePercent)),
      criticalCases := Some(Estimate(latestCases, CriticalPercent)))
  }

  /** `aggregateExistingCountry`: a later record of the same country adds its
      latest count and delta to the totals and recomputes every estimate from
      the new totals; country and label stay. */
  function AggregateExistingCountry(existing: CovidData, latestCases: int, previousCases: int): (d: CovidData)
    requires existing.totalCases.Some? && existing.newCases.Some?
    ensures d.country == existing.country && d.lastUpdated == existing.lastUpdated
    ensures d.totalCases == Some(existing.totalCases.value + latestCases)
    ensures d.newCases == Some(existing.newCases.value + (latestCases - previousCases))
    ensures EstimatesMatchTotals(d)
  {
    var totalCases := existing.totalCases.value + latestCases;
    var newCases := existing.newCases.value + (latestCases - previousCases);
    existing.(
      totalCases := Some(totalCases),
      newCases := Some(newCases),
      totalDeaths := Some(Estimate(totalCases, DeathsPercent)),
      newDeaths := Some(Estimate(newCases, DeathsPercent)),
      totalRecovered := Some(Estimate(totalCases, RecoveredPercent)),
      activeCases := Some(Estimate(totalCases, ActivePercent)),
      criticalCases := Some(Estimate(totalCases, CriticalPercent)))
  }

  /** Summing per-record estimates instead of recomputing them would drift:
      two regions of 49 cases each have 0 estimated deaths apiece, while
      their 98 cases together have 1. */
  lemma RecomputingIsNotSummingEstimates()
    ensures Estimate(49, DeathsPercent) + Estimate(49, DeathsPercent) != Estimate(98, DeathsPercent)
  {
  }

}
