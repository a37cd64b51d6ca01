/** `aggregateDataByCountry` and `parseCovidDataFromCsv`: the records of the
    table folded, one by one and in order, into a map from country to its
    `CovidData`, then listed.

    Reading a record never looks at the map, so the loop is modelled as two
    layers: every record is first read into a `RowOutcome` (its country and
    two counts, or skipped), and the outcomes are then folded into the map.
    The fold is specified against reference definitions: the set of
    countries of accepted records, and per country the sum of its records'
    totals. */
module CsvAggregation {
  import opened Wrappers
  import opened CovidModel
  import opened CsvParser
  import opened Seqs

  // ---------------------------------------------------------------------------
  // Reading every record

  /** The outcome of every record under the selection `sel`, in record order. */
  function ReadRows(rows: seq<Row>, sel: Selection): seq<RowOutcome> {
    Map((row: Row) => ReadRow(row, sel), rows)
  }

  lemma ReadRowsOfSnoc(rows: seq<Row>, row: Row, sel: Selection)
    ensures ReadRows(rows + [row], sel) == ReadRows(rows, sel) + [ReadRow(row, sel)]
  {
  }

  // ---------------------------------------------------------------------------
  // Reference definitions

  /** The countries of the accepted outcomes. */
  function AcceptedCountries(os: seq<RowOutcome>): set<string> {
    if os == [] then {}
    else
      var rest := AcceptedCountries(os[..|os| - 1]);
      match os[|os| - 1]
      case Skipped => rest
      case Accepted(c, _, _) => rest + {c}
  }

  /** What one outcome contributes to country `c`. */
  function Contribution(o: RowOutcome, c: string): Totals {
    match o
    case Skipped => Zero
    case Accepted(country, latest, previous) => if country == c then RowTotals(latest, previous) else Zero
  }

  /** The sum of the contributions of `os` to country `c`. */
  function CountryTotals(os: seq<RowOutcome>, c: string): Totals {
    if os == [] then Zero
    else CountryTotals(os[..|os| - 1], c).Plus(Contribution(os[|os| - 1], c))
  }

  lemma {:induction false} AcceptedCountriesMembership(os: seq<RowOutcome>, c: string)
    ensures c in AcceptedCountries(os) <==> exists i | 0 <= i < |os| :: os[i].Accepted? && os[i].country == c
  {
    if os != [] {
      var init := os[..|os| - 1];
      AcceptedCountriesMembership(init, c);
      if c in AcceptedCountries(init) {
        var i :| 0 <= i < |init| && init[i].Accepted? && init[i].country == c;
        assert os[i] == init[i];
      }
      forall i | 0 <= i < |os| - 1
        ensures os[i] == init[i]
      {
      }
    }
  }

  /** A country with no accepted outcome has nothing summed for it. */
  lemma {:induction false} TotalsOfAbsentCountry(os: seq<RowOutcome>, c: string)
    requires c !in AcceptedCountries(os)
    ensures CountryTotals(os, c) == Zero
  {
    if os != [] {
      TotalsOfAbsentCountry(os[..|os| - 1], c);
    }
  }

  lemma {:induction false} CountryTotalsOfConcat(a: seq<RowOutcome>, b: seq<RowOutcome>, c: string)
    ensures CountryTotals(a + b, c) == CountryTotals(a, c).Plus(CountryTotals(b, c))
    decreases |b|
  {
    if b == [] {
      assert a + b == a;
    } else {
      var init := b[..|b| - 1];
      assert (a + b)[..|a + b| - 1] == a + init;
      CountryTotalsOfConcat(a, init, c);
    }
  }

  /** Summing is insensitive to order. */
  lemma {:induction false} CountryTotalsOfPermutation(a: seq<RowOutcome>, b: seq<RowOutcome>, c: string)
    requires multiset(a) == multiset(b)
    ensures CountryTotals(a, c) == CountryTotals(b, c)
    decreases |a|
  {
    if a == [] {
      assert |b| == |multiset(b)| == 0;
    } else {
      var x := a[|a| - 1];
      assert x in multiset(b);
      var j :| 0 <= j < |b| && b[j] == x;
      var before, after := b[..j], b[j + 1..];
      MultisetWithoutOne(a, b, j);
      CountryTotalsOfPermutation(a[..|a| - 1], before + after, c);
      assert b == before + [x] + after;
      CountryTotalsOfConcat(before + [x], after, c);
      CountryTotalsOfConcat(before, after, c);
      assert (before + [x])[..|before|] == before;
    }
  }

  lemma AcceptedCountriesOfPermutation(a: seq<RowOutcome>, b: seq<RowOutcome>)
    requires multiset(a) == multiset(b)
    ensures AcceptedCountries(a) == AcceptedCountries(b)
  {
    forall c
      ensures c in AcceptedCountries(a) ==> c in AcceptedCountries(b)
      ensures c in AcceptedCountries(b) ==> c in AcceptedCountries(a)
    {
      AcceptedCountriesMembership(a, c);
      AcceptedCountriesMembership(b, c);
      if c in AcceptedCountries(a) {
        var i :| 0 <= i < |a| && a[i].Accepted? && a[i].country == c;
        assert a[i] in multiset(b);
      }
      if c in AcceptedCountries(b) {
        var i :| 0 <= i < |b| && b[i].Accepted? && b[i].country == c;
        assert b[i] in multiset(a);
      }
    }
  }

  // ---------------------------------------------------------------------------
  // The fold

  /** The accumulator invariant: every record sits under its own country's
      name, holds totals and has its estimates in step with them. */
  predicate WellFormed(m: map<string, CovidData>) {
    forall c | c in m :: m[c].country == Some(c) && EstimatesMatchTotals(m[c])
  }

  /** One loop iteration of `aggregateDataByCountry`: a skipped record leaves
      the map alone, a new country is created, a known one aggregated. */
  function Step(m: map<string, CovidData>, o: RowOutcome, latestDate: Option<string>): (m': map<string, CovidData>)
    requires WellFormed(m)
    ensures WellFormed(m')
  {
    match o
    case Skipped => m
    case Accepted(country, latestCases, previousCases) =>
      if country !in m then m[country := CreateCovidData(country, latestCases, previousCases, latestDate)]
      else m[country := AggregateExistingCountry(m[country], latestCases, previousCases)]
  }

  /** The outcomes folded in order into a fresh map. The map holds one entry
      per country of an accepted outcome, and that entry is the summary of
      the sums over that country's outcomes. */
  function Aggregate(os: seq<RowOutcome>, latestDate: Option<string>): (m: map<string, CovidData>)
    ensures WellFormed(m)
    ensures m.Keys == AcceptedCountries(os)
    ensures forall c | c in m :: m[c] == Summary(c, CountryTotals(os, c), LastUpdatedLabel(latestDate))
  {
    if os == [] then map[]
    else
      var init := os[..|os| - 1];
      var m := Aggregate(init, latestDate);
      StepMatchesReference(init, os[|os| - 1], latestDate, m);
      assert init + [os[|os| - 1]] == os;
      Step(m, os[|os| - 1], latestDate)
  }

  /** One step of the fold keeps the map equal to the reference sums. */
  lemma StepMatchesReference(init: seq<RowOutcome>, o: RowOutcome, latestDate: Option<string>, m: map<string, CovidData>)
    requires WellFormed(m)
    requires m.Keys == AcceptedCountries(init)
    requires forall c | c in m :: m[c] == Summary(c, CountryTotals(init, c), LastUpdatedLabel(latestDate))
    ensures Step(m, o, latestDate).Keys == AcceptedCountries(init + [o])
    ensures forall c | c in Step(m, o, latestDate) ::
      Step(m, o, latestDate)[c] == Summary(c, CountryTotals(init + [o], c), LastUpdatedLabel(latestDate))
  {
    StepKeys(init, o, latestDate, m);
    var m' := Step(m, o, latestDate);
    forall c | c in m'
      ensures m'[c] == Summary(c, CountryTotals(init + [o], c), LastUpdatedLabel(latestDate))
    {
      if c !in m {
        TotalsOfAbsentCountry(init, c);
      }
      StepMatchesReferenceAt(init, o, latestDate, m, c);
    }
  }

  /** One step adds the country of an accepted outcome to the keys. */
  lemma StepKeys(init: seq<RowOutcome>, o: RowOutcome, latestDate: Option<string>, m: map<string, CovidData>)
    requires WellFormed(m)
    requires m.Keys == AcceptedCountries(init)
    ensures Step(m, o, latestDate).Keys == AcceptedCountries(init + [o])
  {
    var os := init + [o];
    assert os[..|os| - 1] == init && os[|os| - 1] == o;
    if o.Accepted? {
      assert AcceptedCountries(os) == AcceptedCountries(init) + {o.country};
      assert Step(m, o, latestDate).Keys == m.Keys + {o.country};
    } else {
      assert AcceptedCountries(os) == AcceptedCountries(init);
    }
  }

  /** The entry of one country after a step equals its reference sum. */
  lemma StepMatchesReferenceAt(init: seq<RowOutcome>, o: RowOutcome, latestDate: Option<string>,
                               m: map<string, CovidData>, c: string)
    requires WellFormed(m)
    requires c in m ==> m[c] == Summary(c, CountryTotals(init, c), LastUpdatedLabel(latestDate))
    requires c !in m ==> CountryTotals(init, c) == Zero
    requires c in Step(m, o, latestDate)
    ensures Step(m, o, latestDate)[c] == Summary(c, CountryTotals(init + [o], c), LastUpdatedLabel(latestDate))
  {
    var os := init + [o];
    assert os[..|os| - 1] == init && os[|os| - 1] == o;
    var t := CountryTotals(init, c);
    assert CountryTotals(os, c) == t.Plus(Contribution(o, c));
    if o.Accepted? && o.country == c {
      OwnCountryStep(o, latestDate, m, t, CountryTotals(os, c));
    } else {
      OtherCountryStep(o, latestDate, m, c, t, CountryTotals(os, c));
    }
  }

  lemma OwnCountryStep(o: RowOutcome, latestDate: Option<string>, m: map<string, CovidData>, t: Totals, t': Totals)
    requires WellFormed(m) && o.Accepted?
    requires o.country in m ==> m[o.country] == Summary(o.country, t, LastUpdatedLabel(latestDate))
    requires o.country !in m ==> t == Zero
    requires t' == t.Plus(Contribution(o, o.country))
    ensures Step(m, o, latestDate)[o.country] == Summary(o.country, t', LastUpdatedLabel(latestDate))
  {
    StepUpdatesCountry(o, latestDate, m, t);
  }

  lemma OtherCountryStep(o: RowOutcome, latestDate: Option<string>, m: map<string, CovidData>, c: string,
                         t: Totals, t': Totals)
    requires WellFormed(m) && !(o.Accepted? && o.country == c)
    requires c in m && m[c] == Summary(c, t, LastUpdatedLabel(latestDate))
    requires t' == t.Plus(Contribution(o, c))
    ensures Step(m, o, latestDate)[c] == Summary(c, t', LastUpdatedLabel(latestDate))
  {
    assert t' == t;
    StepLeavesOtherCountries(m, o, latestDate, c);
  }

  /** The country of an accepted outcome gets its totals `t` advanced by the outcome's. */
  lemma StepUpdatesCountry(o: RowOutcome, latestDate: Option<string>, m: map<string, CovidData>, t: Totals)
    requires WellFormed(m)
    requires o.Accepted?
    requires o.country in m ==> m[o.country] == Summary(o.country, t, LastUpdatedLabel(latestDate))
    requires o.country !in m ==> t == Zero
    ensures Step(m, o, latestDate)[o.country]
         == Summary(o.country, t.Plus(RowTotals(o.latestCases, o.previousCases)), LastUpdatedLabel(latestDate))
  {
    var c := o.country;
    if c !in m {
      var d := CreateCovidData(c, o.latestCases, o.previousCases, latestDate);
      assert Step(m, o, latestDate) == m[c := d];
      CreateIsSummary(c, o.latestCases, o.previousCases, latestDate);
      assert t.Plus(RowTotals(o.latestCases, o.previousCases)) == RowTotals(o.latestCases, o.previousCases);
    } else {
      var d := AggregateExistingCountry(m[c], o.latestCases, o.previousCases);
      assert Step(m, o, latestDate) == m[c := d];
      AggregateIsSummary(c, t, LastUpdatedLabel(latestDate), o.latestCases, o.previousCases);
    }
  }

  /** A record whose fields are its totals' summary is that summary. */
  lemma IsSummary(d: CovidData, c: string, lastUpdated: string)
    requires d.country == Some(c) && d.lastUpdated == Some(lastUpdated)
    requires EstimatesMatchTotals(d)
    ensures d == Summary(c, Totals(d.totalCases.value, d.newCases.value), lastUpdated)
  {
  }

  /** A country's first record yields the summary of that record's totals. */
  lemma CreateIsSummary(c: string, latestCases: int, previousCases: int, latestDate: Option<string>)
    ensures CreateCovidData(c, latestCases, previousCases, latestDate)
         == Summary(c, RowTotals(latestCases, previousCases), LastUpdatedLabel(latestDate))
  {
    IsSummary(CreateCovidData(c, latestCases, previousCases, latestDate), c, LastUpdatedLabel(latestDate));
  }

  /** Folding a record into a summary yields the summary of the summed
      totals: estimates are recomputed, never accumulated. */
  lemma AggregateIsSummary(c: string, t: Totals, lastUpdated: string, latestCases: int, previousCases: int)
    ensures AggregateExistingCountry(Summary(c, t, lastUpdated), latestCases, previousCases)
         == Summary(c, t.Plus(RowTotals(latestCases, previousCases)), lastUpdated)
  {
    IsSummary(AggregateExistingCountry(Summary(c, t, lastUpdated), latestCases, previousCases), c, lastUpdated);
  }

  /** `aggregateDataByCountry`: a country is in the map exactly when one of
      its records was accepted, and its entry carries the sums over those
      records with every estimate recomputed from the sums. */
  function AggregateDataByCountry(rows: seq<Row>, sel: Selection): (m: map<string, CovidData>)
    ensures WellFormed(m)
    ensures forall c :: c in m <==>
      exists i | 0 <= i < |rows| :: ReadRow(rows[i], sel).Accepted? && ReadRow(rows[i], sel).country == c
    ensures forall c | c in m :: m[c] == Summary(c, CountryTotals(ReadRows(rows, sel), c), LastUpdatedLabel(sel.latest))
  {
    var os := ReadRows(rows, sel);
    var m := Aggregate(os, sel.latest);
    forall c
      ensures c in m <==> exists i | 0 <= i < |rows| :: ReadRow(rows[i], sel).Accepted? && ReadRow(rows[i], sel).country == c
    {
      AcceptedCountriesMembership(os, c);
    }
    m
  }

  /** `parseCovidDataFromCsv` before its map is turned into a list. */
  function ParseCovidData(headers: seq<string>, rows: seq<Row>): map<string, CovidData> {
    AggregateDataByCountry(rows, SelectFromHeaders(headers))
  }

  // ---------------------------------------------------------------------------
  // Properties of the aggregation

  /** The result is the same for the records in any order: the regions of a
      country add up the same whichever comes first. */
  lemma AggregationIsOrderIndependent(a: seq<Row>, b: seq<Row>, sel: Selection)
    requires multiset(a) == multiset(b)
    ensures AggregateDataByCountry(a, sel) == AggregateDataByCountry(b, sel)
  {
    var f := (row: Row) => ReadRow(row, sel);
    MapKeepsPermutation(f, a, b);
    AcceptedCountriesOfPermutation(ReadRows(a, sel), ReadRows(b, sel));
    forall c | c in AcceptedCountries(ReadRows(a, sel))
      ensures CountryTotals(ReadRows(a, sel), c) == CountryTotals(ReadRows(b, sel), c)
    {
      CountryTotalsOfPermutation(ReadRows(a, sel), ReadRows(b, sel), c);
    }
  }

  /** Outcomes that all read 0 for the previous date have deltas equal to
      their latest counts. */
  lemma {:induction false} TotalsWithZeroPrevious(os: seq<RowOutcome>, c: string)
    requires forall i | 0 <= i < |os| && os[i].Accepted? :: os[i].previousCases == 0
    ensures CountryTotals(os, c).newCases == CountryTotals(os, c).totalCases
  {
    if os != [] {
      TotalsWithZeroPrevious(os[..|os| - 1], c);
    }
  }

  /** Outcomes that all read 0 for both dates sum to 0. */
  lemma {:induction false} TotalsWithZeroCounts(os: seq<RowOutcome>, c: string)
    requires forall i | 0 <= i < |os| && os[i].Accepted? :: os[i].latestCases == 0 && os[i].previousCases == 0
    ensures CountryTotals(os, c) == Zero
  {
    if os != [] {
      var init := os[..|os| - 1];
      forall i | 0 <= i < |init| && init[i].Accepted?
        ensures init[i].latestCases == 0 && init[i].previousCases == 0
      {
        assert init[i] == os[i];
      }
      TotalsWithZeroCounts(init, c);
      assert Contribution(os[|os| - 1], c) == Zero;
    }
  }

  /** A table with no date column yields, for every country, zero totals and
      the label "Unknown". */
  lemma NoDateColumns(headers: seq<string>, rows: seq<Row>)
    requires IdentifyDateColumns(headers) == []
    ensures forall c | c in ParseCovidData(headers, rows) ::
      && ParseCovidData(headers, rows)[c].totalCases == Some(0)
      && ParseCovidData(headers, rows)[c].newCases == Some(0)
      && ParseCovidData(headers, rows)[c].lastUpdated == Some(Unknown)
  {
    var sel := SelectFromHeaders(headers);
    forall c {
      TotalsWithZeroCounts(ReadRows(rows, sel), c);
    }
  }

  /** A table with a single date column yields, for every country, new cases
      equal to total cases: the delta is taken against an implicit 0. */
  lemma SingleDateColumn(headers: seq<string>, rows: seq<Row>)
    requires |IdentifyDateColumns(headers)| == 1
    ensures forall c | c in ParseCovidData(headers, rows) ::
      ParseCovidData(headers, rows)[c].newCases == ParseCovidData(headers, rows)[c].totalCases
  {
    var sel := SelectFromHeaders(headers);
    forall c {
      TotalsWithZeroPrevious(ReadRows(rows, sel), c);
    }
  }

  /** A record whose latest cell holds no number is still counted: its
      latest count reads as 0, its previous count is read as usual, and its
      country appears in the result. */
  lemma NonNumericCellIsKept(rows: seq<Row>, row: Row, sel: Selection)
    requires CountryRegion in row
    requires sel.latest.Some? && sel.latest.value in row
    requires sel.previous.Some? ==> sel.previous.value in row
    requires JavaLang.ParseLong(JavaLang.Trim(JavaLang.RemoveCommas(row[sel.latest.value]))) == None
    ensures ReadRow(row, sel) == Accepted(row[CountryRegion], 0, ReadCount(row, sel.previous).value)
    ensures row[CountryRegion] in AggregateDataByCountry(rows + [row], sel)
  {
    ParseCountIsParseOrZero(row[sel.latest.value]);
    assert (rows + [row])[|rows|] == row;
  }

  /** A record touches only its own country's entry; a skipped record
      touches nothing. */
  lemma RecordTouchesOnlyItsCountry(rows: seq<Row>, row: Row, sel: Selection, c: string)
    requires !(ReadRow(row, sel).Accepted? && ReadRow(row, sel).country == c)
    ensures c in AggregateDataByCountry(rows + [row], sel) <==> c in AggregateDataByCountry(rows, sel)
    ensures c in AggregateDataByCountry(rows, sel) ==>
      AggregateDataByCountry(rows + [row], sel)[c] == AggregateDataByCountry(rows, sel)[c]
  {
    var o := ReadRow(row, sel);
    ReadRowsOfSnoc(rows, row, sel);
    var os := ReadRows(rows, sel);
    AggregateOfSnoc(os, o, sel.latest);
    StepLeavesOtherCountries(Aggregate(os, sel.latest), o, sel.latest, c);
  }

  /** The fold over one more outcome is one more step. */
  lemma AggregateOfSnoc(os: seq<RowOutcome>, o: RowOutcome, latestDate: Option<string>)
    ensures Aggregate(os + [o], latestDate) == Step(Aggregate(os, latestDate), o, latestDate)
  {
    assert (os + [o])[..|os|] == os && (os + [o])[|os|] == o;
  }

  /** A step for another country, or a skipped record, leaves `c` as it was. */
  lemma StepLeavesOtherCountries(m: map<string, CovidData>, o: RowOutcome, latestDate: Option<string>, c: string)
    requires WellFormed(m)
    requires !(o.Accepted? && o.country == c)
    ensures c in Step(m, o, latestDate) <==> c in m
    ensures c in m ==> Step(m, o, latestDate)[c] == m[c]
  {
  }

  /** Two regions of one country, read as 100/80 and 50/40, make one record
      of 150 total and 30 new cases, with every estimate taken from those
      sums: 3 deaths, 135 recovered, 12 active, 1 critical, 0 new deaths. */
  lemma TwoRegionExample(country: string, latestDate: string)
    ensures Aggregate([Accepted(country, 100, 80), Accepted(country, 50, 40)], Some(latestDate))
         == map[country := CovidData(Some(country), Some(150), Some(30), Some(3), Some(0), Some(135), Some(12), Some(1),
                                 Some(latestDate))]
  {
    var first, second := Accepted(country, 100, 80), Accepted(country, 50, 40);
    FirstRegionCreates(country, latestDate);
    SecondRegionAdds(country, latestDate);
    AggregateOfSnoc([first], second, Some(latestDate));
    assert [first] + [second] == [first, second];
  }

  lemma FirstRegionCreates(country: string, latestDate: string)
    ensures Aggregate([Accepted(country, 100, 80)], Some(latestDate))
         == map[country := CovidData(Some(country), Some(100), Some(20), Some(2), Some(0), Some(90), Some(8), Some(1),
                                 Some(latestDate))]
  {
    AggregateOfSnoc([], Accepted(country, 100, 80), Some(latestDate));
    assert [] + [Accepted(country, 100, 80)] == [Accepted(country, 100, 80)];
    assert Estimate(100, DeathsPercent) == 2 && Estimate(20, DeathsPercent) == 0;
    assert Estimate(100, RecoveredPercent) == 90 && Estimate(100, ActivePercent) == 8;
    assert Estimate(100, CriticalPercent) == 1;
  }

  lemma SecondRegionAdds(country: string, latestDate: string)
    ensures var created := CovidData(Some(country), Some(100), Some(20), Some(2), Some(0), Some(90), Some(8), Some(1),
                                     Some(latestDate));
            var folded := CovidData(Some(country), Some(150), Some(30), Some(3), Some(0), Some(135), Some(12), Some(1),
                                    Some(latestDate));
            Step(map[country := created], Accepted(country, 50, 40), Some(latestDate)) == map[country := folded]
  {
    RegionSumsEstimated(country, latestDate);
  }

  lemma RegionSumsEstimated(country: string, latestDate: string)
    ensures AggregateExistingCountry(
              CovidData(Some(country), Some(100), Some(20), Some(2), Some(0), Some(90), Some(8), Some(1), Some(latestDate)), 50, 40)
         == CovidData(Some(country), Some(150), Some(30), Some(3), Some(0), Some(135), Some(12), Some(1), Some(latestDate))
  {
    assert Estimate(150, DeathsPercent) == 3 && Estimate(30, DeathsPercent) == 0;
    assert Estimate(150, RecoveredPercent) == 135 && Estimate(150, ActivePercent) == 12;
    assert Estimate(150, CriticalPercent) == 1;
  }

  // ---------------------------------------------------------------------------
  // The result list

  /** `dataList.addAll(countryMap.values())`: the map's records in whatever
      order its keys come out, each exactly once. */
  method CountryList(m: map<string, CovidData>) returns (list: seq<CovidData>)
    ensures |list| == |m|
    ensures forall d :: d in list <==> d in m.Values
    ensures WellFormed(m) ==>
      forall i, j | 0 <= i < j < |list| :: list[i].country != list[j].country
  {
    list := [];
    var remaining := m.Keys;
    ghost var order: seq<string> := [];
    while remaining != {}
      invariant remaining <= m.Keys
      invariant |list| == |order| && |order| + |remaining| == |m.Keys|
      invariant forall i | 0 <= i < |order| :: order[i] in m.Keys - remaining && list[i] == m[order[i]]
      invariant forall k | k in m.Keys - remaining :: k in order
      invariant forall i, j | 0 <= i < j < |order| :: order[i] != order[j]
      decreases remaining
    {
      var k :| k in remaining;
      list := list + [m[k]];
      order := order + [k];
      remaining := remaining - {k};
    }
    forall d | d in m.Values
      ensures d in list
    {
      var k :| k in m && m[k] == d;
      assert k in m.Keys - remaining && k in order;
      var i :| 0 <= i < |order| && order[i] == k;
      assert list[i] == d;
    }
  }

  /** `parseCovidDataFromCsv`: one record per country of an accepted record,
      in no particular order. */
  method ParseCovidDataFromCsv(headers: seq<string>, rows: seq<Row>) returns (list: seq<CovidData>)
    ensures |list| == |ParseCovidData(headers, rows)|
    ensures forall d :: d in list <==> exists c | c in ParseCovidData(headers, rows) ::
      d == Summary(c, CountryTotals(ReadRows(rows, SelectFromHeaders(headers)), c),
                   LastUpdatedLabel(SelectFromHeaders(headers).latest))
    ensures forall i, j | 0 <= i < j < |list| :: list[i].country != list[j].country
  {
    var m := ParseCovidData(headers, rows);
    list := CountryList(m);
  }
}
