/** The rule-based parts of `AiInsightsServiceImpl` in the outbreak
    application: the switch that turns the language model on, the
    not-found guard, the figures copied into the response, the fallback
    assessment tiers and cards, and the trend ladder that labels a day's new
    cases.

    The model call itself is outside: what it yields (a reply already
    parsed, or a failure anywhere in building the prompt, calling, or
    parsing) is a parameter, as are the record the data service finds and
    the formatted clock reading. */
module AiInsights {
  import opened Wrappers
  import opened JavaLang
  import opened CovidModel

  // ---------------------------------------------------------------------------
  // Configuration

  /** AI is on when it is enabled and the API key is present and not blank. */
  function AiEnabled(enabled: bool, apiKey: Option<string>): (on: bool)
    ensures on <==> enabled && apiKey.Some? && exists i | 0 <= i < |apiKey.value| :: !IsTrimmable(apiKey.value[i])
  {
    enabled && apiKey.Some? && Trim(apiKey.value) != []
  }

  // ---------------------------------------------------------------------------
  // Trend ladder

  /** The trend `buildInsightsPrompt` reads off the day's new cases;
      `Unreported` stands for null new cases. */
  datatype Trend = Unreported | NoNewCases | Minimal | Minor | Moderate | Significant

  function TrendOf(newCases: Option<int>): (t: Trend)
    ensures newCases.None? <==> t == Unreported
    ensures newCases.Some? ==> (t == Significant <==> newCases.value > 10000)
    ensures newCases.Some? ==> (t == Moderate <==> 1000 < newCases.value <= 10000)
    ensures newCases.Some? ==> (t == Minor <==> 100 < newCases.value <= 1000)
    ensures newCases.Some? ==> (t == Minimal <==> 0 < newCases.value <= 100)
    ensures newCases.Some? ==> (t == NoNewCases <==> newCases.value <= 0)
  {
    match newCases
    case None => Unreported
    case Some(n) =>
      if n > 10000 then Significant
      else if n > 1000 then Moderate
      else if n > 100 then Minor
      else if n > 0 then Minimal
      else NoNewCases
  }

  /** The text put into the prompt for each trend: empty for null new cases,
      and a different text for every trend, so the text names its trend. */
  function TrendLabel(t: Trend): (text: string)
    ensures text == [] <==> t == Unreported
    ensures TrendOfLabel(text) == Some(t)
  {
    match t
    case Unreported => ""
    case NoNewCases => "no new cases reported"
    case Minimal => "minimal daily increase"
    case Minor => "minor daily increase"
    case Moderate => "moderate daily increase"
    case Significant => "significant daily increase"
  }

  /** Reads a label back; the partner of `TrendLabel`. */
  function TrendOfLabel(text: string): Option<Trend> {
    if text == "" then Some(Unreported)
    else if text == "no new cases reported" then Some(NoNewCases)
    else if text == "minimal daily increase" then Some(Minimal)
    else if text == "minor daily increase" then Some(Minor)
    else if text == "moderate daily increase" then Some(Moderate)
    else if text == "significant daily increase" then Some(Significant)
    else None
  }

  /** The position of a reported trend on the ladder. */
  function Rank(t: Trend): nat {
    match t
    case Unreported => 0
    case NoNewCases => 0
    case Minimal => 1
    case Minor => 2
    case Moderate => 3
    case Significant => 4
  }

  /** More new cases never yield a lower rung. */
  lemma TrendIsMonotone(a: int, b: int)
    requires a <= b
    ensures Rank(TrendOf(Some(a))) <= Rank(TrendOf(Some(b)))
  {
  }

  // ---------------------------------------------------------------------------
  // Fallback recommendations

  /** An insight card. Icons and description prose are left out; `quoted` is
      the figure a description quotes, if any. */
  datatype Card = Card(title: string, severity: string, quoted: Option<int>)

  const SafetyCard: Card := Card("Safety Precautions", "info", None)
  const TrendCard: Card := Card("Current Trend", "info", None)
  const AdvisoryCard: Card := Card("Health Advisory", "info", None)

  function RisingCard(newCases: int): Card {
    Card("Rising Cases", "warning", Some(newCases))
  }

  /** `generateFallbackRecommendations`: always three cards, safety first and
      the health advisory last; the middle one warns of rising cases, quoting
      them, exactly when more than 1000 new cases are reported. */
  function FallbackRecommendations(d: CovidData): (cards: seq<Card>)
    ensures |cards| == 3
    ensures cards[0] == SafetyCard && cards[2] == AdvisoryCard
    ensures cards[1].severity == "warning" <==> d.newCases.Some? && d.newCases.value > 1000
    ensures cards[1].severity == "warning" ==> cards[1] == RisingCard(d.newCases.value)
    ensures cards[1].severity != "warning" ==> cards[1] == TrendCard
  {
    var middle := if d.newCases.Some? && d.newCases.value > 1000 then RisingCard(d.newCases.value) else TrendCard;
    [SafetyCard, middle, AdvisoryCard]
  }

  /** The card and the prompt agree: the warning card appears exactly when
      the trend ladder says moderate or significant. */
  lemma RisingCardIffSteepTrend(d: CovidData)
    ensures FallbackRecommendations(d)[1].severity == "warning" <==> Rank(TrendOf(d.newCases)) >= 3
  {
  }

  // ---------------------------------------------------------------------------
  // Fallback assessment

  const HighImpactThreshold: int := 10_000_000
  const SubstantialThreshold: int := 1_000_000

  /** The three assessment texts, by the figures each quotes: the third
      leaves the active cases out. The prose around them is left out. */
  datatype Assessment =
    | HighImpact(country: Option<string>, totalCases: int, activeCases: int)
    | Substantial(country: Option<string>, totalCases: int, activeCases: int)
    | Recorded(country: Option<string>, totalCases: int)

  function Tier(a: Assessment): nat {
    match a
    case Recorded(_, _) => 0
    case Substantial(_, _, _) => 1
    case HighImpact(_, _, _) => 2
  }

  /** `generateFallbackAssessment`: null counts read as 0; above ten million
      total cases the high-impact text, above one million the substantial
      one, otherwise the recorded one. */
  function FallbackAssessment(d: CovidData): (a: Assessment)
    ensures a.country == d.country && a.totalCases == d.totalCases.GetOr(0)
    ensures a.HighImpact? <==> d.totalCases.GetOr(0) > HighImpactThreshold
    ensures a.Substantial? <==> SubstantialThreshold < d.totalCases.GetOr(0) <= HighImpactThreshold
    ensures a.Recorded? <==> d.totalCases.GetOr(0) <= SubstantialThreshold
    ensures !a.Recorded? ==> a.activeCases == d.activeCases.GetOr(0)
  {
    var totalCases := if d.totalCases.Some? then d.totalCases.value else 0;
    var activeCases := if d.activeCases.Some? then d.activeCases.value else 0;
    if totalCases > 10000000 then HighImpact(d.country, totalCases, activeCases)
    else if totalCases > 1000000 then Substantial(d.country, totalCases, activeCases)
    else Recorded(d.country, totalCases)
  }

  /** More total cases never yield a milder tier. */
  lemma TierIsMonotone(d: CovidData, e: CovidData)
    requires d.totalCases.GetOr(0) <= e.totalCases.GetOr(0)
    ensures Tier(FallbackAssessment(d)) <= Tier(FallbackAssessment(e))
  {
  }

  /** Only the country and the two counts matter to the assessment: records
      agreeing on them, whatever else they hold, are assessed alike. */
  lemma AssessmentReadsThreeFields(d: CovidData, e: CovidData)
    requires d.country == e.country && d.totalCases.GetOr(0) == e.totalCases.GetOr(0)
    requires d.activeCases.GetOr(0) == e.activeCases.GetOr(0)
    ensures FallbackAssessment(d) == FallbackAssessment(e)
  {
  }

  // ---------------------------------------------------------------------------
  // getCountryInsights

  /** What the model's reply yielded once parsed: each key may be absent. */
  datatype AiReply = AiReply(assessment: Option<string>, recommendations: Option<seq<Card>>)

  /** Where the overall assessment came from. */
  datatype Overall = FromModel(text: string) | FromRules(assessment: Assessment)

  /** `CovidInsightsResponse`; a `None` field is null. */
  datatype InsightsResponse = InsightsResponse(
    country: Option<string>,
    totalCases: Option<int>,
    newCases: Option<int>,
    totalDeaths: Option<int>,
    totalRecovered: Option<int>,
    activeCases: Option<int>,
    generatedAt: string,
    overallAssessment: Option<Overall>,
    recommendations: Option<seq<Card>>)

  const NotFoundPrefix: string := "Country not found: "

  /** The response with the record's six figures copied and nothing else set. */
  function CopyFigures(d: CovidData, generatedAt: string): InsightsResponse {
    InsightsResponse(d.country, d.totalCases, d.newCases, d.totalDeaths, d.totalRecovered, d.activeCases,
                     generatedAt, None, None)
  }

  /** The response the rules produce for `d`. */
  function WithFallback(r: InsightsResponse, d: CovidData): InsightsResponse {
    r.(overallAssessment := Some(FromRules(FallbackAssessment(d))),
       recommendations := Some(FallbackRecommendations(d)))
  }

  /** `getCountryInsights`. `aiOn` is the service's `aiEnabled` flag, that is
      `AiEnabled(enabled, apiKey)` of its configuration. An unknown country throws
      "Country not found: <name>" and builds nothing. Otherwise the six
      figures are copied from the record; when AI is on and the model's
      reply was obtained and parsed, the reply's keys that are present fill
      the assessment and the cards; in every other case the rules fill both. */
  function GetCountryInsights(countryName: string, found: Option<CovidData>, aiOn: bool,
                              reply: Result<AiReply, string>, generatedAt: string): (r: Result<InsightsResponse, string>)
    ensures r.Failure? <==> found.None?
    ensures r.Failure? ==> r.error == NotFoundPrefix + countryName
    ensures r.Success? ==>
      && r.value.country == found.value.country
      && r.value.totalCases == found.value.totalCases
      && r.value.newCases == found.value.newCases
      && r.value.totalDeaths == found.value.totalDeaths
      && r.value.totalRecovered == found.value.totalRecovered
      && r.value.activeCases == found.value.activeCases
      && r.value.generatedAt == generatedAt
    ensures r.Success? && (!aiOn || reply.Failure?) ==>
      && r.value.overallAssessment == Some(FromRules(FallbackAssessment(found.value)))
      && r.value.recommendations == Some(FallbackRecommendations(found.value))
    ensures r.Success? && aiOn && reply.Success? ==>
      && (r.value.overallAssessment.Some? <==> reply.value.assessment.Some?)
      && (r.value.overallAssessment.Some? ==> r.value.overallAssessment.value == FromModel(reply.value.assessment.value))
      && r.value.recommendations == reply.value.recommendations
  {
    match found
    case None => Failure(NotFoundPrefix + countryName)
    case Some(d) =>
      var response := CopyFigures(d, generatedAt);
      if aiOn && reply.Success? then
        var overall := match reply.value.assessment
          case None => None
          case Some(text) => Some(FromModel(text));
        Success(response.(overallAssessment := overall, recommendations := reply.value.recommendations))
      else
        Success(WithFallback(response, d))
  }

  /** The figures shown never depend on the model: the AI path and the rule
      path report the same six figures. */
  lemma FiguresIndependentOfModel(countryName: string, d: CovidData, reply: Result<AiReply, string>, generatedAt: string)
    ensures var withModel := GetCountryInsights(countryName, Some(d), true, reply, generatedAt).value;
            var withRules := GetCountryInsights(countryName, Some(d), false, reply, generatedAt).value;
            withModel.(overallAssessment := None, recommendations := None)
              == withRules.(overallAssessment := None, recommendations := None)
  {
  }

  /** A rule-filled response always carries the three cards and an assessment. */
  lemma FallbackIsComplete(countryName: string, d: CovidData, aiOn: bool, reply: Result<AiReply, string>, generatedAt: string)
    requires !aiOn || reply.Failure?
    ensures var r := GetCountryInsights(countryName, Some(d), aiOn, reply, generatedAt).value;
            r.overallAssessment.Some? && r.overallAssessment.value.FromRules?
            && r.recommendations.Some? && |r.recommendations.value| == 3
  {
  }
}
