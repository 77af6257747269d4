/** The application's page state: the plan on show, the loading flag, the
    error line, the booking status and the payment dialog, and the
    handlers that overwrite them. The asynchronous generate handler is two
    events: its start, before the AI call, and its finish, when the reply
    (or the failure) arrives. */
module App {
  import opened Wrappers
  import opened Json
  import opened Types
  import opened I18n
  import GeminiService
  import ShareLink
  import ItineraryDisplay

  type BookingStatus = ItineraryDisplay.BookingStatus

  /** The fixed English text for a shared link that does not decode. */
  const LinkCorrupted: string := "Could not load the shared itinerary. The link may be corrupted."

  /** JavaScript truthiness of a JSON value: `{itinerary ? … : …}` and
      `{itinerary && …}` treat `null`, `false`, `0` and `""` as no plan. */
  predicate Truthy(v: Value)
  {
    match v
    case Null => false
    case Bool(b) => b
    case Number(n) => n != 0
    case String(s) => s != ""
    case _ => true
  }

  /** A plan is an object, and every object is truthy. */
  lemma ObjectsAreTruthy(v: Value)
    requires v.Object?
    ensures Truthy(v)
  {
  }

  /** What the page shows: the login form without a user; otherwise the
      plan (with the payment dialog) when there is one, or the home page
      with the spinner or the form and the error line. */
  datatype Screen =
    | LoginScreen
    | HomeScreen(spinner: bool, errorLine: Option<string>)
    | PlanScreen(plan: Value, status: BookingStatus, dialogOpen: bool)

  class AppContent {
    var itinerary: Value
    var isLoading: bool
    var error: Option<string>
    var bookingStatus: BookingStatus
    var isPaymentModalOpen: bool

    /** `bookingStatus` is typed with a `failed` value that no handler
        ever assigns. */
    predicate Valid()
      reads this
    {
      bookingStatus != ItineraryDisplay.Failed
    }

    constructor()
      ensures itinerary == Null && !isLoading && error.None?
      ensures bookingStatus == ItineraryDisplay.Idle && !isPaymentModalOpen
      ensures Valid()
    {
      itinerary := Null;
      isLoading := false;
      error := None;
      bookingStatus := ItineraryDisplay.Idle;
      isPaymentModalOpen := false;
    }

    /** The mount effect as written (`atob`, then `JSON.parse`): a shared
        plan becomes the plan directly, without loading; a link that does
        not decode sets the corrupted-link message; without a link nothing
        changes. */
    method LoadShared(search: string)
      requires Valid()
      modifies this
      ensures Valid()
      ensures isLoading == old(isLoading) && bookingStatus == old(bookingStatus)
      ensures isPaymentModalOpen == old(isPaymentModalOpen)
      ensures ShareLink.LoadAsWritten(search).Plan? ==> itinerary == ShareLink.LoadAsWritten(search).value && error == old(error)
      ensures ShareLink.LoadAsWritten(search).Corrupted? ==> itinerary == old(itinerary) && error == Some(LinkCorrupted)
      ensures ShareLink.LoadAsWritten(search).NoLink? ==> itinerary == old(itinerary) && error == old(error)
    {
      match ShareLink.LoadAsWritten(search) {
        case NoLink =>
        case Plan(v) =>
          itinerary := v;
        case Corrupted =>
          error := Some(LinkCorrupted);
      }
    }

    /** The mount effect reading the corrected link (Base64, then UTF-8,
        then JSON), with the same outcomes. */
    method LoadSharedCorrected(search: string)
      requires Valid()
      modifies this
      ensures Valid()
      ensures isLoading == old(isLoading) && bookingStatus == old(bookingStatus)
      ensures isPaymentModalOpen == old(isPaymentModalOpen)
      ensures ShareLink.Load(search).Plan? ==> itinerary == ShareLink.Load(search).value && error == old(error)
      ensures ShareLink.Load(search).Corrupted? ==> itinerary == old(itinerary) && error == Some(LinkCorrupted)
      ensures ShareLink.Load(search).NoLink? ==> itinerary == old(itinerary) && error == old(error)
    {
      match ShareLink.Load(search) {
        case NoLink =>
        case Plan(v) =>
          itinerary := v;
        case Corrupted =>
          error := Some(LinkCorrupted);
      }
    }

    /** The generate handler up to the AI call: loading on, error and plan
        cleared, booking back to idle; the request is the form's
        preferences with the current language. */
    method StartGenerate(preferences: FormPreferences, language: Language) returns (request: TripPreferences)
      requires Valid()
      modifies this
      ensures Valid()
      ensures isLoading && error.None? && itinerary == Null && bookingStatus == ItineraryDisplay.Idle
      ensures isPaymentModalOpen == old(isPaymentModalOpen)
      ensures request == WithLanguage(preferences, language)
    {
      isLoading := true;
      error := None;
      itinerary := Null;
      bookingStatus := ItineraryDisplay.Idle;
      request := WithLanguage(preferences, language);
    }

    /** The generate handler after the AI call: `generateItinerary`
        settles with the value it parsed or with its error (see
        `GeminiService.ParseReply`); the value becomes the plan, or the
        translated generation error is shown in place of the service's
        own message; either way loading ends. There is no check that the
        request is still the current one. */
    method FinishGenerate(outcome: Result<Value, string>, t: Translations)
      requires Valid()
      modifies this
      ensures Valid()
      ensures !isLoading
      ensures bookingStatus == old(bookingStatus) && isPaymentModalOpen == old(isPaymentModalOpen)
      ensures outcome.Ok? ==> itinerary == outcome.value && error == old(error)
      ensures outcome.Err? ==> itinerary == old(itinerary) && error == Some(t.error_generateItinerary)
    {
      match outcome {
        case Ok(v) =>
          itinerary := v;
        case Err(_) =>
          error := Some(t.error_generateItinerary);
      }
      isLoading := false;
    }

    /** Back to the start page. */
    method Reset()
      requires Valid()
      modifies this
      ensures Valid()
      ensures itinerary == Null && error.None? && !isLoading
      ensures bookingStatus == ItineraryDisplay.Idle && !isPaymentModalOpen
    {
      itinerary := Null;
      error := None;
      isLoading := false;
      bookingStatus := ItineraryDisplay.Idle;
      isPaymentModalOpen := false;
    }

    /** The book button: only the dialog flag changes. */
    method OpenPaymentModal()
      requires Valid()
      modifies this
      ensures Valid()
      ensures isPaymentModalOpen
      ensures itinerary == old(itinerary) && isLoading == old(isLoading) && error == old(error)
      ensures bookingStatus == old(bookingStatus)
    {
      isPaymentModalOpen := true;
    }

    /** Closing the dialog: only the dialog flag changes. */
    method ClosePaymentModal()
      requires Valid()
      modifies this
      ensures Valid()
      ensures !isPaymentModalOpen
      ensures itinerary == old(itinerary) && isLoading == old(isLoading) && error == old(error)
      ensures bookingStatus == old(bookingStatus)
    {
      isPaymentModalOpen := false;
    }

    /** The simulated payment: the dialog closes and the booking is
        confirmed; the plan stays. */
    method ConfirmPayment()
      requires Valid()
      modifies this
      ensures Valid()
      ensures !isPaymentModalOpen && bookingStatus == ItineraryDisplay.Booked
      ensures itinerary == old(itinerary) && isLoading == old(isLoading) && error == old(error)
    {
      isPaymentModalOpen := false;
      bookingStatus := ItineraryDisplay.Booked;
    }

    /** The page for the signed-in user, if any. */
    function View(user: Option<User>): (r: Screen)
      reads this
      ensures user.None? <==> r.LoginScreen?
      ensures r.PlanScreen? <==> user.Some? && Truthy(itinerary)
      ensures r.PlanScreen? ==> r.plan == itinerary && r.status == bookingStatus && r.dialogOpen == isPaymentModalOpen
      ensures r.HomeScreen? ==> r.spinner == isLoading
      ensures r.HomeScreen? ==> (r.errorLine.Some? <==> error.Some? && error.value != "")
    {
      if user.None? then LoginScreen
      else if Truthy(itinerary) then PlanScreen(itinerary, bookingStatus, isPaymentModalOpen)
      else HomeScreen(isLoading, if error.Some? && error.value != "" then error else None)
    }
  }

  /** A reply that arrives after the user went back to the start page is
      still put on show: a generation is started, the page is reset, and
      the late reply (the JSON text of a plan) replaces the start page. */
  method ResetThenLateReply(v: Value, preferences: FormPreferences, language: Language, t: Translations, user: User)
    returns (screen: Screen)
    requires WellFormed(v) && v.Object?
    ensures screen == PlanScreen(v, ItineraryDisplay.Idle, false)
  {
    var app := new AppContent();
    var _ := app.StartGenerate(preferences, language);
    app.Reset();
    GeminiService.ReplyOfStringify(v);
    app.FinishGenerate(GeminiService.ParseReply(GeminiService.Text(Stringify(v))), t);
    ObjectsAreTruthy(v);
    screen := app.View(Some(user));
  }

  /** A failed generation leaves the start page with the form (not the
      spinner) and the translated error line. */
  method FailedGeneration(preferences: FormPreferences, language: Language, t: Translations, user: User)
    returns (screen: Screen)
    requires t.error_generateItinerary != ""
    ensures screen == HomeScreen(false, Some(t.error_generateItinerary))
  {
    var app := new AppContent();
    var _ := app.StartGenerate(preferences, language);
    app.FinishGenerate(GeminiService.ParseReply(GeminiService.CallFailed), t);
    screen := app.View(Some(user));
  }

  /** Opening a corrected shared link shows its plan at once, with no
      spinner and no generation. */
  method OpenSharedLink(v: Value, pageAddress: string, user: User) returns (screen: Screen)
    requires WellFormed(v) && v.Object?
    ensures screen == PlanScreen(v, ItineraryDisplay.Idle, false)
  {
    var app := new AppContent();
    ShareLink.ShareRoundTrip(v);
    app.LoadSharedCorrected(ShareLink.ShareSearch(v));
    ObjectsAreTruthy(v);
    screen := app.View(Some(user));
  }

  /** The link the page shares for the plan `"a>"`, opened as written,
      shows the start page with the corrupted-link message. */
  method OpenLinkWithPlus(user: User) returns (screen: Screen)
    ensures screen == HomeScreen(false, Some(LinkCorrupted))
  {
    var app := new AppContent();
    ShareLink.PlusInTokenCorruptsLink();
    app.LoadShared(ShareLink.SearchAsWritten("ImE+Ig=="));
    screen := app.View(Some(user));
  }
}
