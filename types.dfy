/** The records the trip planner passes around: the interface language,
    the signed-in user, the preferences a trip is requested with, and the
    itinerary plan the AI returns. Costs are whole rupees; the budget is
    the number `parseFloat` read from the form, never NaN. */
module Types {
  import opened Wrappers
  import JsNumbers

  /** The five interface and response languages. */
  datatype Language = En | Hi | Ta | Te | Ml

  const AllLanguages: seq<Language> := [En, Hi, Ta, Te, Ml]

  /** The two-letter code a language is stored under. */
  function Code(l: Language): (r: string)
    ensures |r| == 2
  {
    match l
    case En => "en"
    case Hi => "hi"
    case Ta => "ta"
    case Te => "te"
    case Ml => "ml"
  }

  /** The language a code names, if any. */
  function LanguageOfCode(s: string): (r: Option<Language>)
    ensures r.Some? ==> Code(r.value) == s
  {
    if s == "en" then Some(En)
    else if s == "hi" then Some(Hi)
    else if s == "ta" then Some(Ta)
    else if s == "te" then Some(Te)
    else if s == "ml" then Some(Ml)
    else None
  }

  /** The language type is exactly the five codes: every language is
      listed once, its code reads back as itself, and no other string is
      a language code. */
  lemma LanguagesAreTheFiveCodes(l: Language, s: string)
    ensures l in AllLanguages && |AllLanguages| == 5
    ensures forall i, j :: 0 <= i < j < |AllLanguages| ==> AllLanguages[i] != AllLanguages[j]
    ensures LanguageOfCode(Code(l)) == Some(l)
    ensures LanguageOfCode(s).Some? <==> s in ["en", "hi", "ta", "te", "ml"]
  {
  }

  datatype User = User(name: string, email: string)

  /** What the trip form submits: interests are an ordered list, so order
      and repeats are kept. */
  datatype FormPreferences = FormPreferences(destination: string, duration: int, budget: JsNumbers.Num, interests: seq<string>)

  datatype TripPreferences = TripPreferences(destination: string, duration: int, budget: JsNumbers.Num, interests: seq<string>, language: Language)

  /** The form's preferences completed with the current language. */
  function WithLanguage(p: FormPreferences, language: Language): (r: TripPreferences)
    ensures r.destination == p.destination && r.duration == p.duration && r.budget == p.budget
    ensures r.interests == p.interests && r.language == language
  {
    TripPreferences(p.destination, p.duration, p.budget, p.interests, language)
  }

  datatype Activity = Activity(time: string, description: string, estimatedCost: int, bookingNeeded: bool)

  datatype ItineraryDay = ItineraryDay(day: int, title: string, activities: seq<Activity>, dailyCost: int)

  datatype AccommodationSuggestion = AccommodationSuggestion(name: string, description: string, estimatedCostPerNight: int)

  datatype TransportationSuggestion = TransportationSuggestion(recommendation: string)

  datatype ItineraryPlan = ItineraryPlan(
    tripTitle: string,
    totalEstimatedCost: int,
    accommodation: seq<AccommodationSuggestion>,
    transportation: TransportationSuggestion,
    dailyPlans: seq<ItineraryDay>)
}
