/** `CovidDataServiceImpl`. The COVID and the outbreak applications carry
    line-for-line copies of it. Besides their packages, imports, log text and
    the property key naming the data file, they differ only in the prefix of
    the refresh failure message; both are modelled here, over one record type.

    The repository is not modelled: `getGlobalStats` receives the list that
    `findAllCountryData` returns, and `refreshCovidData` receives the parse
    result and whether the bulk upsert throws. The wall clock that stamps the
    statistics is a parameter. */
module CovidDataService {
  import opened Wrappers
  import opened CovidModel
  import opened Seqs

  // ---------------------------------------------------------------------------
  // getGlobalStats

  /** The world totals. `affectedCountries` is the number of records. */
  datatype GlobalStats = GlobalStats(
    totalCases: int,
    totalDeaths: int,
    totalRecovered: int,
    activeCases: int,
    criticalCases: int,
    affectedCountries: nat,
    lastUpdated: string)

  /** The five count fields the roll-up sums; `newCases` and `newDeaths` are not among them. */
  predicate RolledUp(f: Field) {
    f == TotalCases || f == TotalDeaths || f == TotalRecovered || f == ActiveCases || f == CriticalCases
  }

  /** A count field read as `x != null ? x : 0`. */
  function CountOrZero(d: CovidData, f: Field): int
    requires !f.IsText()
  {
    Get(d, f).count.GetOr(0)
  }

  /** The sum of field `f` over `all`, null counting as 0. */
  function FieldSum(all: seq<CovidData>, f: Field): int
    requires !f.IsText()
  {
    if all == [] then 0 else FieldSum(all[..|all| - 1], f) + CountOrZero(all[|all| - 1], f)
  }

  /** `getGlobalStats`: each total is the null-as-0 sum of its field over
      every record, and the country count is the number of records, whatever
      their fields hold. */
  method GetGlobalStats(all: seq<CovidData>, now: string) returns (stats: GlobalStats)
    ensures stats.totalCases == FieldSum(all, TotalCases)
    ensures stats.totalDeaths == FieldSum(all, TotalDeaths)
    ensures stats.totalRecovered == FieldSum(all, TotalRecovered)
    ensures stats.activeCases == FieldSum(all, ActiveCases)
    ensures stats.criticalCases == FieldSum(all, CriticalCases)
    ensures stats.affectedCountries == |all|
    ensures stats.lastUpdated == now
    ensures all == [] ==> stats == GlobalStats(0, 0, 0, 0, 0, 0, now)
  {
    var totalCases, totalDeaths, totalRecovered, activeCases, criticalCases := 0, 0, 0, 0, 0;
    var i := 0;
    while i < |all|
      invariant 0 <= i <= |all|
      invariant totalCases == FieldSum(all[..i], TotalCases)
      invariant totalDeaths == FieldSum(all[..i], TotalDeaths)
      invariant totalRecovered == FieldSum(all[..i], TotalRecovered)
      invariant activeCases == FieldSum(all[..i], ActiveCases)
      invariant criticalCases == FieldSum(all[..i], CriticalCases)
    {
      var data := all[i];
      assert all[..i + 1][..i] == all[..i];
      totalCases := totalCases + (if data.totalCases.Some? then data.totalCases.value else 0);
      totalDeaths := totalDeaths + (if data.totalDeaths.Some? then data.totalDeaths.value else 0);
      totalRecovered := totalRecovered + (if data.totalRecovered.Some? then data.totalRecovered.value else 0);
      activeCases := activeCases + (if data.activeCases.Some? then data.activeCases.value else 0);
      criticalCases := criticalCases + (if data.criticalCases.Some? then data.criticalCases.value else 0);
      i := i + 1;
    }
    assert all[..i] == all;
    stats := GlobalStats(totalCases, totalDeaths, totalRecovered, activeCases, criticalCases, |all|, now);
  }

  lemma {:induction false} FieldSumOfConcat(a: seq<CovidData>, b: seq<CovidData>, f: Field)
    requires !f.IsText()
    ensures FieldSum(a + b, f) == FieldSum(a, f) + FieldSum(b, f)
    decreases |b|
  {
    if b == [] {
      assert a + b == a;
    } else {
      var init := b[..|b| - 1];
      assert (a + b)[..|a + b| - 1] == a + init;
      FieldSumOfConcat(a, init, f);
    }
  }

  /** The totals do not depend on the order the repository lists the records in. */
  lemma {:induction false} FieldSumOfPermutation(a: seq<CovidData>, b: seq<CovidData>, f: Field)
    requires !f.IsText()
    requires multiset(a) == multiset(b)
    ensures FieldSum(a, f) == FieldSum(b, f)
    decreases |a|
  {
    if a == [] {
      assert |b| == |multiset(b)| == 0;
    } else {
      var x := a[|a| - 1];
      assert x in multiset(b);
      var j :| 0 <= j < |b| && b[j] == x;
      var before, after := b[..j], b[j + 1..];
      MultisetWithoutOne(a, b, j);
      FieldSumOfPermutation(a[..|a| - 1], before + after, f);
      assert b == before + [x] + after;
      FieldSumOfConcat(before + [x], after, f);
      FieldSumOfConcat(before, after, f);
      assert (before + [x])[..|before|] == before;
    }
  }

  /** A record whose counts are all null adds 0 to every total but still
      counts as an affected country. */
  lemma NullRecordAddsNothing(all: seq<CovidData>, d: CovidData, f: Field)
    requires !f.IsText() && Get(d, f) == Count(None)
    ensures FieldSum(all + [d], f) == FieldSum(all, f)
  {
    assert (all + [d])[..|all|] == all;
  }

  /** Changing a record's `newCases`, `newDeaths` or any other field outside
      the five changes none of the totals. */
  lemma RollUpIgnoresOtherFields(all: seq<CovidData>, i: nat, g: Field, v: Value, f: Field)
    requires i < |all| && Fits(g, v) && !RolledUp(g)
    requires RolledUp(f)
    ensures FieldSum(all[i := Set(all[i], g, v)], f) == FieldSum(all, f)
  {
    var changed := all[i := Set(all[i], g, v)];
    assert all == all[..i] + [all[i]] + all[i + 1..];
    assert changed == all[..i] + [changed[i]] + all[i + 1..];
    FieldSumOfConcat(all[..i] + [all[i]], all[i + 1..], f);
    FieldSumOfConcat(all[..i] + [changed[i]], all[i + 1..], f);
    assert (all[..i] + [all[i]])[..i] == all[..i];
    assert (all[..i] + [changed[i]])[..i] == all[..i];
  }

  /** The service's own test data: USA and India, built by the no-argument
      constructor and the setters, roll up to the totals the test expects; a
      record whose counts were left null rolls up to zeros. */
  method TwoCountryExample(now: string) returns (both: GlobalStats, nulls: GlobalStats)
    ensures both == GlobalStats(1500000, 30000, 1350000, 120000, 15000, 2, now)
    ensures nulls == GlobalStats(0, 0, 0, 0, 0, 1, now)
  {
    var usa := Empty().(country := Some("USA"), totalCases := Some(1000000), totalDeaths := Some(20000),
                        totalRecovered := Some(900000), activeCases := Some(80000), criticalCases := Some(10000));
    var india := Empty().(country := Some("India"), totalCases := Some(500000), totalDeaths := Some(10000),
                          totalRecovered := Some(450000), activeCases := Some(40000), criticalCases := Some(5000));
    var test := Empty().(country := Some("Test"), totalCases := None, totalDeaths := None);
    assert [usa, india][..1] == [usa] && [usa][..0] == [] && [test][..0] == [];
    both := GetGlobalStats([usa, india], now);
    nulls := GetGlobalStats([test], now);
  }

  // ---------------------------------------------------------------------------
  // refreshCovidData

  const CovidPrefix: string := "Failed to refresh COVID-19 data: "
  const OutbreakPrefix: string := "Failed to refresh respiratory outbreak data: "

  /** `"" + e.getMessage()`: a null message is concatenated as "null". */
  function MessageText(message: Option<string>): string {
    message.GetOr("null")
  }

  /** What a refresh did: the lists handed to the bulk upsert, in call order,
      and the message of the `RuntimeException` it threw, if any. */
  datatype Refreshed = Refreshed(upserts: seq<seq<CovidData>>, thrown: Option<string>)

  /** `refreshCovidData` with failure prefix `prefix`. `parsed` is the parse
      result or the (possibly null) message of the exception parsing threw;
      `upsertFailure` is the message of the exception the bulk upsert throws,
      if it throws. An empty parse writes nothing and succeeds; a non-empty
      one is upserted whole, once; every failure is rethrown with the prefix
      in front of the cause's message. */
  function Refresh(prefix: string, parsed: Result<seq<CovidData>, Option<string>>,
                   upsertFailure: Option<Option<string>>): (r: Refreshed)
    ensures |r.upserts| <= 1
    ensures r.upserts != [] <==> parsed.Success? && parsed.value != []
    ensures r.upserts != [] ==> r.upserts[0] == parsed.value
    ensures r.thrown.Some? <==> parsed.Failure? || (parsed.value != [] && upsertFailure.Some?)
    ensures r.thrown.Some? ==> |prefix| <= |r.thrown.value| && r.thrown.value[..|prefix|] == prefix
    ensures parsed.Failure? ==> r.thrown == Some(prefix + MessageText(parsed.error))
    ensures parsed.Success? && r.thrown.Some? ==> r.thrown == Some(prefix + MessageText(upsertFailure.value))
  {
    match parsed
    case Failure(message) => Refreshed([], Some(prefix + MessageText(message)))
    case Success(list) =>
      if list == [] then Refreshed([], None)
      else
        match upsertFailure
        case None => Refreshed([list], None)
        case Some(message) => Refreshed([list], Some(prefix + MessageText(message)))
  }

  /** The COVID application's refresh. */
  function RefreshCovidData(parsed: Result<seq<CovidData>, Option<string>>,
                            upsertFailure: Option<Option<string>>): (r: Refreshed)
    ensures r.thrown.Some? ==> |CovidPrefix| <= |r.thrown.value| && r.thrown.value[..|CovidPrefix|] == CovidPrefix
    ensures parsed.Success? && parsed.value == [] ==> r == Refreshed([], None)
  {
    Refresh(CovidPrefix, parsed, upsertFailure)
  }

  /** The outbreak application's refresh. */
  function RefreshOutbreakData(parsed: Result<seq<CovidData>, Option<string>>,
                               upsertFailure: Option<Option<string>>): (r: Refreshed)
    ensures r.thrown.Some? ==> |OutbreakPrefix| <= |r.thrown.value| && r.thrown.value[..|OutbreakPrefix|] == OutbreakPrefix
    ensures parsed.Success? && parsed.value == [] ==> r == Refreshed([], None)
  {
    Refresh(OutbreakPrefix, parsed, upsertFailure)
  }

  /** The cause's message can be read back from the rethrown one. */
  lemma CauseIsRecoverable(prefix: string, parsed: Result<seq<CovidData>, Option<string>>,
                           upsertFailure: Option<Option<string>>)
    requires Refresh(prefix, parsed, upsertFailure).thrown.Some?
    ensures var m := Refresh(prefix, parsed, upsertFailure).thrown.value;
      m[|prefix|..] == if parsed.Failure? then MessageText(parsed.error) else MessageText(upsertFailure.value)
  {
  }

  /** The two copies behave alike: same writes, same success or failure, and
      the same cause after their different prefixes. */
  lemma CopiesAgree(parsed: Result<seq<CovidData>, Option<string>>, upsertFailure: Option<Option<string>>)
    ensures RefreshCovidData(parsed, upsertFailure).upserts == RefreshOutbreakData(parsed, upsertFailure).upserts
    ensures RefreshCovidData(parsed, upsertFailure).thrown.Some? == RefreshOutbreakData(parsed, upsertFailure).thrown.Some?
    ensures RefreshCovidData(parsed, upsertFailure).thrown.Some? ==>
      RefreshCovidData(parsed, upsertFailure).thrown.value[|CovidPrefix|..]
      == RefreshOutbreakData(parsed, upsertFailure).thrown.value[|OutbreakPrefix|..]
  {
    if RefreshCovidData(parsed, upsertFailure).thrown.Some? {
      CauseIsRecoverable(CovidPrefix, parsed, upsertFailure);
      CauseIsRecoverable(OutbreakPrefix, parsed, upsertFailure);
    }
  }
}
