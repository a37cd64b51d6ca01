# Respiratory outbreak dashboard: a verified model of the Java back end

This project models in Dafny the core of the two Spring Boot services behind the
COVID-19 tracker and the respiratory outbreak tracker, and proves properties of
the model:

- **CSV ingestion** (`CsvParserUtil`): the Johns Hopkins time-series table is reduced
  to one `CovidData` record per country. Date columns are the headers that are
  not metadata. The last two date columns are selected. Each record's cells are
  read with a forgiving `parseLong`. Records are folded per country, and the
  estimates (2 % deaths, 90 % recovered, 8 % active, 1 % critical) are
  recomputed from the running totals.
- **Data service** (`CovidDataServiceImpl`, both application copies): the world
  roll-up with nulls read as 0, and the refresh with its empty-parse guard,
  single bulk upsert and prefixed rethrow.
- **Request analytics** (`AnalyticsServiceImpl`): per-endpoint counts, response
  time totals and averages, success and error tallies, and the newest-first
  timeline of at most 100 requests.
- **AI insights** (`AiInsightsServiceImpl`), the rule-based parts: the AI switch,
  the not-found guard, the figures copied into the response, the fallback
  assessment tiers and cards, and the trend ladder.
- **The record** (`CovidData`): constructors, getters and setters, and `equals`/`hashCode`
  on the country name.

Modules, one per file:

- `Wrappers`: `Option` for nullable references and `Result` for calls that may throw.
- `JavaLang`: the Java platform behaviours relied on: `trim`, `replace`,
  `equalsIgnoreCase`, `Long.parseLong`, the truncating `(long)` cast, `int`
  wrap-around and `String.hashCode`. `parseLong` is narrowed to ASCII digits
  and `equalsIgnoreCase` to ASCII case; "Left out" names both.
- `CovidModel`: the record.
- `CsvParser`: the per-record logic.
- `CsvAggregation`: the fold and the list.
- `Seqs`: generic sequence facts.
- `CovidDataService`, `AnalyticsService`, `AiInsights`: the services.

The fold is specified against independent reference definitions: the set of
accepted countries, and per country the sum of its records' totals. The
analytics loops are specified against reference counts and sums per endpoint.

A table cell that is not a number follows the code: `parseLong` turns it into 0
and the record is kept (`CsvAggregation.NonNumericCellIsKept`). It is not a
malformed record that gets skipped. Only a missing country cell or a missing
selected date cell, which make `CSVRecord.get` throw, skip a record.

## Model

| member | source | states |
|---|---|---|
| JavaLang.Trim | covid-tracker-api/src/main/java/com/covidtracker/api/util/CsvParserUtil.java:202 | `String.trim`: the result is the infix of the text left between a leading and a trailing run of chars at or below U+0020; it is empty exactly when the text is blank, and otherwise starts and ends with a char above U+0020 |
| JavaLang.RemoveCommas | covid-tracker-api/src/main/java/com/covidtracker/api/util/CsvParserUtil.java:207 | `replace(",", "")` leaves no comma, never lengthens the text, and leaves a comma-free text unchanged |
| JavaLang.RemoveCommasKeepsOtherChars | covid-tracker-api/src/main/java/com/covidtracker/api/util/CsvParserUtil.java:207 | removing the commas keeps every other char exactly as often as it occurred |
| JavaLang.RemoveCommasOfConcat | covid-tracker-api/src/main/java/com/covidtracker/api/util/CsvParserUtil.java:207 | removing the commas of a concatenation concatenates the two texts with their commas removed, so the remaining chars keep their order |
| JavaLang.RemoveCommasOfChar | covid-tracker-api/src/main/java/com/covidtracker/api/util/CsvParserUtil.java:207 | a single char is dropped exactly when it is a comma |
| JavaLang.EqualsIgnoreCase | covid-tracker-api/src/main/java/com/covidtracker/api/util/CsvParserUtil.java:88-91 | `equalsIgnoreCase`: equal texts have equal lengths and agree char by char under the case key, and texts of equal length whose chars agree after ASCII upper-casing are equal |
| JavaLang.CaseKeyAgainstAscii | covid-tracker-api/src/main/java/com/covidtracker/api/util/CsvParserUtil.java:88-91 | a char matches an ASCII char ignoring case exactly when it is one of that char's matches: either case of a letter (plus the dotless i, dotted capital I, long s and Kelvin sign for i, s and k), and only itself for any other ASCII char |
| JavaLang.EqualsIgnoreCaseOfAscii | covid-tracker-api/src/main/java/com/covidtracker/api/util/CsvParserUtil.java:88-91 | against an ASCII text, `equalsIgnoreCase` holds exactly when the lengths agree and every char is one of the matches of the char opposite it, so a text differing from a metadata header by anything but letter case is not that header |
| JavaLang.ParseLong | covid-tracker-api/src/main/java/com/covidtracker/api/util/CsvParserUtil.java:207 | `Long.parseLong` succeeds exactly when the text is an optional `-` or `+` followed by at least one digit and the signed decimal value lies in the `long` range, and then returns that signed value; an empty text or a lone sign fails |
| JavaLang.ParseLongOfLongToString | covid-tracker-api/src/main/java/com/covidtracker/api/util/CsvParserUtil.java:207 | `Long.parseLong(Long.toString(n)) == n` for every `long` n |
| JavaLang.ParseLongOfNonCanonical | covid-tracker-api/src/main/java/com/covidtracker/api/util/CsvParserUtil.java:207 | leading zeros and a `+` sign are accepted (`"007"` is 7, `"+5"` is 5, `"-0"` is 0), and a sign inside the digits fails |
| JavaLang.TruncDiv | covid-tracker-api/src/main/java/com/covidtracker/api/util/CsvParserUtil.java:162-166 | the `(long)` cast of a quotient rounds toward zero: for a non-negative dividend the quotient times the divisor lies in (a - b, a], for a negative one in [a, a + b) |
| JavaLang.StringHashCode | covid-tracker-api/src/main/java/com/covidtracker/api/model/CovidData.java:119-122 | the `String.hashCode` of a text is a 32-bit `int`, and 0 for the empty text |
| JavaLang.StringHashCodeOfSnoc | covid-tracker-api/src/main/java/com/covidtracker/api/model/CovidData.java:119-122 | appending a char below U+10000 turns the hash `h` into `31 * h + c`, wrapped to 32 bits |
| JavaLang.StringHashCodeOfSurrogateSnoc | covid-tracker-api/src/main/java/com/covidtracker/api/model/CovidData.java:119-122 | appending a char beyond U+FFFF applies that step twice, once with its high surrogate and once with its low surrogate |
| JavaLang.StringHashCodeIsWrappedPolynomial | covid-tracker-api/src/main/java/com/covidtracker/api/model/CovidData.java:119-122 | for a text of chars below U+10000, `String.hashCode` is `s[0]*31^(n-1) + ... + s[n-1]` computed without overflow and wrapped once to 32 bits |
| CovidModel.Get | covid-tracker-api/src/main/java/com/covidtracker/api/model/CovidData.java:39-109 | each getter returns a value of its property's Java type |
| CovidModel.Set | covid-tracker-api/src/main/java/com/covidtracker/api/model/CovidData.java:39-109 | a setter changes its own property to the new value and leaves the other eight as they were |
| CovidModel.Empty | covid-tracker-api/src/main/java/com/covidtracker/api/model/CovidData.java:21-22 | the no-argument constructor leaves every property null |
| CovidModel.ConstructorStoresArguments | covid-tracker-api/src/main/java/com/covidtracker/api/model/CovidData.java:24-36 | the nine-argument constructor stores each argument in the property its getter reads |
| CovidModel.HashCode | covid-tracker-api/src/main/java/com/covidtracker/api/model/CovidData.java:119-122 | `Objects.hash(country)` is a 32-bit `int`: 31 for a null country, and otherwise 31 plus the country's `String.hashCode`, wrapped to 32 bits |
| CovidModel.HashCodeIsPolynomial | covid-tracker-api/src/main/java/com/covidtracker/api/model/CovidData.java:119-122 | for a country of chars below U+10000, the hash code is 31 plus the hash polynomial of the country, wrapped once to 32 bits |
| CovidModel.HashCodeOfUsa | covid-tracker-api/src/main/java/com/covidtracker/api/model/CovidData.java:119-122 | a record for "USA" hashes to 84354, that is 31 + 84323 |
| CovidModel.Equals | covid-tracker-api/src/main/java/com/covidtracker/api/model/CovidData.java:111-117 | `equals` is false on null, true on a record with the same country, false on a record with another country unless it is this very object, and on an object of another class true only for this very object |
| CovidModel.EqualsIffSameCountry | covid-tracker-api/src/main/java/com/covidtracker/api/model/CovidData.java:111-117 | `equals` holds exactly for a `CovidData` argument whose country equals this one's (two nulls are equal), whatever the other fields hold |
| CovidModel.EqualsIsEquivalence | covid-tracker-api/src/main/java/com/covidtracker/api/model/CovidData.java:111-117 | `equals` is reflexive, false on null, and symmetric and transitive among records |
| CovidModel.HashCodeAgreesWithEquals | covid-tracker-api/src/main/java/com/covidtracker/api/model/CovidData.java:111-122 | records that are `equals` have the same `hashCode` |
| CovidModel.IdentityIgnoresFigures | covid-tracker-api/src/main/java/com/covidtracker/api/model/CovidData.java:111-122 | setting any property except the country changes neither `equals` nor `hashCode` |
| CsvParser.IdentifyDateColumns | covid-tracker-api/src/main/java/com/covidtracker/api/util/CsvParserUtil.java:85-96 | the date columns are never more than the headers, and each is a header that is not one of the four metadata headers |
| CsvParser.DateColumnsAreDataHeaders | covid-tracker-api/src/main/java/com/covidtracker/api/util/CsvParserUtil.java:85-96 | the date columns are exactly the headers that are not one of the four metadata names compared ignoring case, each kept as often as it occurs |
| CsvParser.DateColumnsOfConcat | covid-tracker-api/src/main/java/com/covidtracker/api/util/CsvParserUtil.java:85-96 | the classifier keeps the headers' order: classifying a concatenation concatenates the classified parts |
| CsvParser.SelectRecentDates | covid-tracker-api/src/main/java/com/covidtracker/api/util/CsvParserUtil.java:64-65 | the latest date is the last date column and the previous the second-last, each null exactly when there are too few date columns |
| CsvParser.AppendedHeaderShiftsSelection | covid-tracker-api/src/main/java/com/covidtracker/api/util/CsvParserUtil.java:61-65 | a new date column at the end becomes the latest and demotes the old latest to previous; a new metadata column changes nothing |
| CsvParser.ParseCount | covid-tracker-api/src/main/java/com/covidtracker/api/util/CsvParserUtil.java:201-212 | `parseLong` never fails and yields a `long`; null, blank and "N/A" in any case yield 0 |
| CsvParser.ParseCountIsParseOrZero | covid-tracker-api/src/main/java/com/covidtracker/api/util/CsvParserUtil.java:201-212 | the guards only short-cut inputs that would fail anyway: `parseLong` is "strip commas, trim, parse, or 0" |
| CsvParser.BlankFailsToParse | covid-tracker-api/src/main/java/com/covidtracker/api/util/CsvParserUtil.java:202-207 | a blank text fails `Long.parseLong` after comma removal and trimming |
| CsvParser.NotAvailableFailsToParse | covid-tracker-api/src/main/java/com/covidtracker/api/util/CsvParserUtil.java:202-207 | "N/A" in any case fails `Long.parseLong` after comma removal and trimming |
| CsvParser.ParseCountOfDecimal | covid-tracker-api/src/main/java/com/covidtracker/api/util/CsvParserUtil.java:201-212 | every `long` written in decimal reads back as itself |
| CsvParser.ParseCountIgnoresCommas | covid-tracker-api/src/main/java/com/covidtracker/api/util/CsvParserUtil.java:207 | a text reads as the same count with or without its commas |
| CsvParser.ParseCountOfGroupedDecimal | covid-tracker-api/src/main/java/com/covidtracker/api/util/CsvParserUtil.java:206-207 | a `long` written with thousands separators ("1,234,567") reads back as itself |
| CsvParser.ParseCountOfGarbage | covid-tracker-api/src/main/java/com/covidtracker/api/util/CsvParserUtil.java:208-211 | a text that is not a number ("abc") reads as 0 |
| CsvParser.ReadCount | covid-tracker-api/src/main/java/com/covidtracker/api/util/CsvParserUtil.java:116-117 | an unselected date column reads as 0; a selected one reads as its parsed cell, and throws exactly when the record has no cell for it |
| CsvParser.ReadRow | covid-tracker-api/src/main/java/com/covidtracker/api/util/CsvParserUtil.java:111-132 | a record is skipped exactly when it lacks the country cell or a selected date cell; otherwise it yields its country and the two parsed counts |
| CsvParser.Estimate | covid-tracker-api/src/main/java/com/covidtracker/api/util/CsvParserUtil.java:162-166 | `(long)(x * p / 100)` is p percent of x rounded toward zero: within one unit below it for a non-negative product, within one unit above it for a negative one |
| CsvParser.EstimateBounds | covid-tracker-api/src/main/java/com/covidtracker/api/util/CsvParserUtil.java:161-166 | for a non-negative total: critical <= deaths <= active <= recovered <= total, and deaths + recovered + active lose at most 2 cases to truncation |
| CsvParser.EstimateIsOdd | covid-tracker-api/src/main/java/com/covidtracker/api/util/CsvParserUtil.java:162-166 | the truncating cast makes every estimate of a negative count the negated estimate of its magnitude |
| CsvParser.CreateCovidData | covid-tracker-api/src/main/java/com/covidtracker/api/util/CsvParserUtil.java:153-169 | a first record sets country, total = latest, new = latest - previous, the label to the latest date or "Unknown", and every estimate from those figures |
| CsvParser.AggregateExistingCountry | covid-tracker-api/src/main/java/com/covidtracker/api/util/CsvParserUtil.java:179-193 | a later record adds its latest count and its delta to the totals and recomputes every estimate from the new totals; country and label stay |
| CsvParser.RecomputingIsNotSummingEstimates | covid-tracker-api/src/main/java/com/covidtracker/api/util/CsvParserUtil.java:185-192 | recomputing differs from summing the regions' estimates: two regions of 49 cases have 0 estimated deaths each, 98 cases have 1 |
| CsvAggregation.ReadRowsOfSnoc | covid-tracker-api/src/main/java/com/covidtracker/api/util/CsvParserUtil.java:111-117 | reading one more record appends its outcome and leaves the earlier outcomes alone |
| CsvAggregation.AcceptedCountriesMembership | covid-tracker-api/src/main/java/com/covidtracker/api/util/CsvParserUtil.java:111-128 | a country is among the accepted ones exactly when some accepted record names it |
| CsvAggregation.TotalsOfAbsentCountry | covid-tracker-api/src/main/java/com/covidtracker/api/util/CsvParserUtil.java:111-128 | a country with no accepted record has nothing summed for it |
| CsvAggregation.CountryTotalsOfConcat | covid-tracker-api/src/main/java/com/covidtracker/api/util/CsvParserUtil.java:111-128 | the per-country sums distribute over a split of the records |
| CsvAggregation.CountryTotalsOfPermutation | covid-tracker-api/src/main/java/com/covidtracker/api/util/CsvParserUtil.java:111-128 | the per-country sums do not depend on the order of the records |
| CsvAggregation.AcceptedCountriesOfPermutation | covid-tracker-api/src/main/java/com/covidtracker/api/util/CsvParserUtil.java:111-128 | the set of countries does not depend on the order of the records |
| CsvAggregation.Step | covid-tracker-api/src/main/java/com/covidtracker/api/util/CsvParserUtil.java:120-128 | one loop iteration keeps every entry under its own country with its estimates in step with its totals |
| CsvAggregation.Aggregate | covid-tracker-api/src/main/java/com/covidtracker/api/util/CsvParserUtil.java:106-136 | the fold holds one entry per accepted country, equal to the summary of that country's summed totals |
| CsvAggregation.StepMatchesReference | covid-tracker-api/src/main/java/com/covidtracker/api/util/CsvParserUtil.java:119-128 | one loop iteration keeps the map equal to the reference per-country sums |
| CsvAggregation.StepUpdatesCountry | covid-tracker-api/src/main/java/com/covidtracker/api/util/CsvParserUtil.java:119-128 | the country of an accepted record has its totals advanced by that record's, whether it was new or known |
| CsvAggregation.CreateIsSummary | covid-tracker-api/src/main/java/com/covidtracker/api/util/CsvParserUtil.java:153-169 | a first record is the summary of its own totals |
| CsvAggregation.AggregateIsSummary | covid-tracker-api/src/main/java/com/covidtracker/api/util/CsvParserUtil.java:179-193 | folding a record into a summary gives the summary of the summed totals |
| CsvAggregation.AggregateDataByCountry | covid-tracker-api/src/main/java/com/covidtracker/api/util/CsvParserUtil.java:106-136 | a country has an entry exactly when one of its records was accepted, and the entry carries the sums over those records with every estimate recomputed from the sums |
| CsvAggregation.AggregationIsOrderIndependent | covid-tracker-api/src/main/java/com/covidtracker/api/util/CsvParserUtil.java:106-136 | the map is the same for the records in any order |
| CsvAggregation.TotalsWithZeroPrevious | covid-tracker-api/src/main/java/com/covidtracker/api/util/CsvParserUtil.java:117 | when every previous count reads 0, each country's new cases equal its total cases |
| CsvAggregation.TotalsWithZeroCounts | covid-tracker-api/src/main/java/com/covidtracker/api/util/CsvParserUtil.java:116-117 | when every count reads 0, every country's totals are 0 |
| CsvAggregation.NoDateColumns | covid-tracker-api/src/main/java/com/covidtracker/api/util/CsvParserUtil.java:64-65 | with no date column every country has 0 total and new cases and the label "Unknown" |
| CsvAggregation.SingleDateColumn | covid-tracker-api/src/main/java/com/covidtracker/api/util/CsvParserUtil.java:64-65 | with a single date column every country's new cases equal its total cases |
| CsvAggregation.NonNumericCellIsKept | covid-tracker-api/src/main/java/com/covidtracker/api/util/CsvParserUtil.java:116 | a record whose latest cell is not a number is kept: its latest count reads as 0, its previous count is read as usual, and its country is in the result |
| CsvAggregation.RecordTouchesOnlyItsCountry | covid-tracker-api/src/main/java/com/covidtracker/api/util/CsvParserUtil.java:111-132 | a record changes only its own country's entry, and a skipped record changes nothing |
| CsvAggregation.AggregateOfSnoc | covid-tracker-api/src/main/java/com/covidtracker/api/util/CsvParserUtil.java:111-133 | folding one more record is one more loop iteration |
| CsvAggregation.StepLeavesOtherCountries | covid-tracker-api/src/main/java/com/covidtracker/api/util/CsvParserUtil.java:120-128 | an iteration for another country, or a skipped record, leaves a country's entry as it was |
| CsvAggregation.TwoRegionExample | covid-tracker-api/src/main/java/com/covidtracker/api/util/CsvParserUtil.java:106-193 | two regions read as 100/80 and 50/40 make one record of 150 total, 30 new, 3 deaths, 0 new deaths, 135 recovered, 12 active, 1 critical |
| CsvAggregation.CountryList | covid-tracker-api/src/main/java/com/covidtracker/api/util/CsvParserUtil.java:71 | `addAll(countryMap.values())` lists every record of the map exactly once, with no two for the same country |
| CsvAggregation.ParseCovidDataFromCsv | covid-tracker-api/src/main/java/com/covidtracker/api/util/CsvParserUtil.java:44-77 | the parse yields one record per accepted country, each the summary of that country's sums, in no particular order |
| CovidDataService.GetGlobalStats | covid-tracker-api/src/main/java/com/covidtracker/api/service/impl/CovidDataServiceImpl.java:47-81 | each world total is the null-as-0 sum of its field over all records, the country count is the number of records, and no records give all zeros |
| CovidDataService.FieldSumOfConcat | covid-tracker-api/src/main/java/com/covidtracker/api/service/impl/CovidDataServiceImpl.java:58-64 | the totals distribute over a split of the record list |
| CovidDataService.FieldSumOfPermutation | covid-tracker-api/src/main/java/com/covidtracker/api/service/impl/CovidDataServiceImpl.java:58-64 | the totals do not depend on the order the repository lists the records in |
| CovidDataService.NullRecordAddsNothing | covid-tracker-api/src/main/java/com/covidtracker/api/service/impl/CovidDataServiceImpl.java:59-63 | a record with a null count adds nothing to that total |
| CovidDataService.RollUpIgnoresOtherFields | covid-tracker-api/src/main/java/com/covidtracker/api/service/impl/CovidDataServiceImpl.java:58-64 | changing new cases, new deaths or any field outside the five summed ones changes no total |
| CovidDataService.TwoCountryExample | covid-tracker-api/src/test/java/com/covidtracker/api/service/impl/CovidDataServiceImplTest.java:34-99 | the test's USA and India records roll up to 1,500,000 cases, 30,000 deaths, 1,350,000 recovered, 120,000 active, 15,000 critical and 2 countries; the test's record with null counts rolls up to zeros and 1 country |
| CovidDataService.Refresh | covid-tracker-api/src/main/java/com/covidtracker/api/service/impl/CovidDataServiceImpl.java:115-134 | an empty parse writes nothing and succeeds; a non-empty one is upserted whole, exactly once; every failure is rethrown as the prefix followed by the cause's message |
| CovidDataService.RefreshCovidData | covid-tracker-api/src/main/java/com/covidtracker/api/service/impl/CovidDataServiceImpl.java:115-134 | the COVID copy's failures start with "Failed to refresh COVID-19 data: "; an empty parse is a no-op |
| CovidDataService.RefreshOutbreakData | outbreak-tracker-api/src/main/java/com/outbreaktracker/api/outbreak/service/impl/CovidDataServiceImpl.java:115-134 | the outbreak copy's failures start with "Failed to refresh respiratory outbreak data: "; an empty parse is a no-op |
| CovidDataService.CauseIsRecoverable | covid-tracker-api/src/main/java/com/covidtracker/api/service/impl/CovidDataServiceImpl.java:130-133 | the cause's message is the rethrown message after the prefix |
| CovidDataService.CopiesAgree | outbreak-tracker-api/src/main/java/com/outbreaktracker/api/outbreak/service/impl/CovidDataServiceImpl.java:115-134 | the two copies write the same lists, fail on the same inputs, and carry the same cause after their prefixes |
| AnalyticsService.OccursIffSeen | covid-tracker-api/src/main/java/com/covidtracker/api/analytics/service/impl/AnalyticsServiceImpl.java:41-44 | an endpoint has a positive count exactly when some request went to it |
| AnalyticsService.GetEndpointStats | covid-tracker-api/src/main/java/com/covidtracker/api/analytics/service/impl/AnalyticsServiceImpl.java:35-47 | one entry per endpoint that occurs, holding the number of requests to it, so at least 1 |
| AnalyticsService.EveryRequestCountedOnce | covid-tracker-api/src/main/java/com/covidtracker/api/analytics/service/impl/AnalyticsServiceImpl.java:41-44 | over the endpoints the counts add up to the number of requests |
| AnalyticsService.SumResponseTimes | covid-tracker-api/src/main/java/com/covidtracker/api/analytics/service/impl/AnalyticsServiceImpl.java:61-68 | per endpoint, the sum of its response times and its number of requests |
| AnalyticsService.GetResponseTimeStats | covid-tracker-api/src/main/java/com/covidtracker/api/analytics/service/impl/AnalyticsServiceImpl.java:54-80 | one average per endpoint that occurs, the quotient of its total time by its count; the count is never 0, so the 0.0 fallback is never taken |
| AnalyticsService.TotalTimeWithinRange | covid-tracker-api/src/main/java/com/covidtracker/api/analytics/service/impl/AnalyticsServiceImpl.java:71-77 | the average lies within the range of the response times it averages |
| AnalyticsService.Classify | covid-tracker-api/src/main/java/com/covidtracker/api/analytics/service/impl/AnalyticsServiceImpl.java:106-111 | 2xx is a success and 400 or above an error, and nothing else is either |
| AnalyticsService.GetSuccessErrorRates | covid-tracker-api/src/main/java/com/covidtracker/api/analytics/service/impl/AnalyticsServiceImpl.java:87-115 | every endpoint that occurs gets an entry starting at 0/0, holding the number of its 2xx and of its 400-and-above requests |
| AnalyticsService.ZeroTallies | covid-tracker-api/src/main/java/com/covidtracker/api/analytics/service/impl/AnalyticsServiceImpl.java:97-104 | an endpoint that does not occur has nothing tallied |
| AnalyticsService.TalliesPartitionRequests | covid-tracker-api/src/main/java/com/covidtracker/api/analytics/service/impl/AnalyticsServiceImpl.java:106-111 | success, error and other partition an endpoint's requests, so success plus error never exceeds its count |
| AnalyticsService.Insert | covid-tracker-api/src/main/java/com/covidtracker/api/analytics/service/impl/AnalyticsServiceImpl.java:128-133 | one insertion step keeps the list newest first and grows it by one |
| AnalyticsService.SortNewestFirst | covid-tracker-api/src/main/java/com/covidtracker/api/analytics/service/impl/AnalyticsServiceImpl.java:128-133 | the sort orders the metrics newest first and keeps their number |
| AnalyticsService.InsertIsPermutation | covid-tracker-api/src/main/java/com/covidtracker/api/analytics/service/impl/AnalyticsServiceImpl.java:128-133 | an insertion step adds exactly the inserted metric |
| AnalyticsService.SortIsPermutation | covid-tracker-api/src/main/java/com/covidtracker/api/analytics/service/impl/AnalyticsServiceImpl.java:128-133 | the sort neither loses nor invents a metric |
| AnalyticsService.InsertIsStable | covid-tracker-api/src/main/java/com/covidtracker/api/analytics/service/impl/AnalyticsServiceImpl.java:128-133 | an insertion step places the metric after every earlier one with its timestamp |
| AnalyticsService.SortIsStable | covid-tracker-api/src/main/java/com/covidtracker/api/analytics/service/impl/AnalyticsServiceImpl.java:128-133 | `Collections.sort` is stable: metrics sharing a timestamp keep the order the repository listed them in |
| AnalyticsService.TakeEntries | covid-tracker-api/src/main/java/com/covidtracker/api/analytics/service/impl/AnalyticsServiceImpl.java:137-148 | the first n metrics become entries, in order, reporting the five fields |
| AnalyticsService.GetTimeline | covid-tracker-api/src/main/java/com/covidtracker/api/analytics/service/impl/AnalyticsServiceImpl.java:122-151 | min(100, n) entries, newest first, taken from the front of the sorted list |
| AnalyticsService.TimelineHoldsTheNewest | covid-tracker-api/src/main/java/com/covidtracker/api/analytics/service/impl/AnalyticsServiceImpl.java:122-151 | with at most 100 metrics all are shown; beyond that every metric newer than the oldest shown is shown; every entry comes from a stored metric |
| AiInsights.AiEnabled | outbreak-tracker-api/src/main/java/com/outbreaktracker/api/aiinsights/service/impl/AiInsightsServiceImpl.java:45 | AI is on exactly when enabled and the API key is non-null with a char above U+0020 |
| AiInsights.TrendOf | outbreak-tracker-api/src/main/java/com/outbreaktracker/api/aiinsights/service/impl/AiInsightsServiceImpl.java:111-124 | null new cases give no trend; otherwise > 10000 significant, > 1000 moderate, > 100 minor, > 0 minimal, else none, each rung exactly on its range |
| AiInsights.TrendLabel | outbreak-tracker-api/src/main/java/com/outbreaktracker/api/aiinsights/service/impl/AiInsightsServiceImpl.java:111-124 | the prompt text of a trend is empty exactly for null new cases, and every trend has its own text: reading it back gives the trend |
| AiInsights.TrendIsMonotone | outbreak-tracker-api/src/main/java/com/outbreaktracker/api/aiinsights/service/impl/AiInsightsServiceImpl.java:112-123 | more new cases never yield a lower rung of the trend ladder |
| AiInsights.FallbackRecommendations | outbreak-tracker-api/src/main/java/com/outbreaktracker/api/aiinsights/service/impl/AiInsightsServiceImpl.java:292-330 | always three cards, safety first and health advisory last; the middle one is the rising-cases warning quoting the new cases exactly when more than 1000 are reported, otherwise the current-trend card |
| AiInsights.RisingCardIffSteepTrend | outbreak-tracker-api/src/main/java/com/outbreaktracker/api/aiinsights/service/impl/AiInsightsServiceImpl.java:304-319 | the warning card appears exactly when the prompt's trend is moderate or significant |
| AiInsights.FallbackAssessment | outbreak-tracker-api/src/main/java/com/outbreaktracker/api/aiinsights/service/impl/AiInsightsServiceImpl.java:268-287 | null counts read as 0; above 10,000,000 total cases the high-impact text, above 1,000,000 the substantial one, else the recorded one, quoting country, total and (not in the third) active cases |
| AiInsights.TierIsMonotone | outbreak-tracker-api/src/main/java/com/outbreaktracker/api/aiinsights/service/impl/AiInsightsServiceImpl.java:273-286 | more total cases never yield a milder assessment |
| AiInsights.AssessmentReadsThreeFields | outbreak-tracker-api/src/main/java/com/outbreaktracker/api/aiinsights/service/impl/AiInsightsServiceImpl.java:268-271 | the assessment depends on the country, total cases and active cases only |
| AiInsights.GetCountryInsights | outbreak-tracker-api/src/main/java/com/outbreaktracker/api/aiinsights/service/impl/AiInsightsServiceImpl.java:62-98 | an unknown country fails with "Country not found: " and the name; otherwise the six figures are copied; when AI is on and the reply was obtained and parsed its present keys fill assessment and cards, and in every other case the rules fill both |
| AiInsights.FiguresIndependentOfModel | outbreak-tracker-api/src/main/java/com/outbreaktracker/api/aiinsights/service/impl/AiInsightsServiceImpl.java:72-81 | the six figures shown are the same whether the model or the rules fill the rest |
| AiInsights.FallbackIsComplete | outbreak-tracker-api/src/main/java/com/outbreaktracker/api/aiinsights/service/impl/AiInsightsServiceImpl.java:94-97 | a rule-filled response always carries an assessment and three cards |

## Left out

- Tokenising: the tab-delimited reader is outside the model. Its `setTrim(true)`
  cell trimming and `setIgnoreHeaderCase(true)` header lookup are left out too.
  The table arrives as header names and records, and each record is an
  exact-key map from header to cell.
- Floating point: every `(long)(x * 0.02)`-style estimate is exact integer
  truncation toward zero of `x * p / 100`. This differs from the `double`
  product only where the `double` rounding errs.
- `AnalyticsService.GetResponseTimeStats`: the average is an exact quotient
  (`Quotient(total, count)`) rather than a `double`. The method also returns the
  two intermediate maps that the Java method keeps local.
- `long` overflow: sums and deltas are unbounded integers. Only `parseLong`'s
  range check and `hashCode`'s 32-bit wrap are modelled.
- `JavaLang.ParseLong`: only ASCII digits are accepted. `Long.parseLong` also
  accepts other Unicode decimal digits.
- `JavaLang.EqualsIgnoreCase`: exact only when one side is ASCII. Every call in
  the core compares against an ASCII literal, so full Unicode case folding is
  not needed.
- The OpenAI call, prompt building, code-fence stripping and JSON parsing of the
  reply: they are a parameter of `AiInsights.GetCountryInsights`, either the
  reply's keys already parsed or a failure anywhere along that path.
- Card icons and description prose, and the assessment prose: a card keeps
  title, severity and the number it quotes. An assessment keeps its tier and
  the figures it quotes.
- Mortality and active-case percentages of the prompt are left out because they
  are floating point.
- Persistence: the repositories are not modelled. `getAllCountriesData` and
  `getCountryData` pass the repository's answer through unchanged, and the
  case-insensitive country lookup is the repository's. The lookup's answer is a
  parameter of `AiInsights.GetCountryInsights`, and the list that
  `findAllCountryData` returns is the input of `CovidDataService.GetGlobalStats`.
- The bulk upsert is modelled only as "called once with the whole list, or it
  throws". Its row count is only logged.
- Caching (`@Cacheable`, `@CacheEvict`), transactions, logging, controllers and
  the UI scripts are framework glue or presentation.
- `HashMap` iteration order: `CsvAggregation.CountryList` lists the map's
  records in an unspecified order.
- Clocks: the formatted current time is a parameter wherever the services read
  one.
- Metrics with a null endpoint or null timestamp are left out: every metric
  has both. The metric's document id plays no part.
- `AnalyticsAiServiceImpl` is not part of this model.
- The outbreak application's own `CsvParserUtil` and `CovidData` are not part
  of this model. Its service copy is modelled over the COVID application's
  record.
- `toString` of `CovidData` is left out because it is diagnostic text only.
