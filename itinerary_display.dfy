/** The itinerary page: the texts it fills in (the day count, and on the
    booking-confirmed screen the destination and the confirmation
    e-mail), and the share button with its passing feedback line. */
module ItineraryDisplay {
  import opened Wrappers
  import opened Text
  import JsNumbers
  import Json
  import opened Types
  import opened I18n
  import ShareLink

  /** `bookingStatus`. */
  datatype BookingStatus = Idle | Booked | Failed

  const DefaultConfirmation: string := "A confirmation email with all your tickets and vouchers has been sent."
  const CopyFailed: string := "Failed to copy link."
  const FeedbackMillis: nat := 2000

  const EmailPlaceholder: string := "{email}"
  const DestinationPlaceholder: string := "{destination}"
  const DaysPlaceholder: string := "{days}"
  const InSeparator: string := " in "

  // ---------------------------------------------------------------------
  // Texts

  /** `dailyPlans.length.toString()` put in place of `{days}`. */
  function DaysText(t: Translations, plan: ItineraryPlan): string
  {
    ReplaceFirst(t.itinerary_days_adventure, DaysPlaceholder, JsNumbers.NatText(|plan.dailyPlans|))
  }

  /** A template holding `{days}` after text without `{` shows the number
      of days, in decimal, in that place. */
  lemma DaysTextShowsCount(a: string, b: string, t: Translations, plan: ItineraryPlan)
    requires t.itinerary_days_adventure == a + DaysPlaceholder + b
    requires forall k :: 0 <= k < |a| ==> a[k] != '{'
    ensures DaysText(t, plan) == a + JsNumbers.NatText(|plan.dailyPlans|) + b
  {
    var n := JsNumbers.NatText(|plan.dailyPlans|);
    PlaceholderReplaced(a, DaysPlaceholder, b, n);
    assert forall k :: 0 <= k < |n| ==> n[k] != '$' by {
      assert JsNumbers.AllDigits(n);
    }
    SubstitutionVerbatim(n, DaysPlaceholder, a, b);
  }

  /** `tripTitle.split(' in ').pop()`: the text after the last separator
      the left-to-right split finds, or the whole title. */
  function Destination(title: string): (r: string)
    ensures |r| <= |title| && r == title[|title| - |r|..]
    ensures !Contains(r, InSeparator)
  {
    LastSplitPieceShape(title, InSeparator);
    LastSplitPiece(title, InSeparator)
  }

  /** A title without ` in ` is its own destination. */
  lemma DestinationOfPlainTitle(title: string)
    requires !Contains(title, InSeparator)
    ensures Destination(title) == title
  {
    LastSplitPieceShape(title, InSeparator);
  }

  /** `"… in Jaipur"` names Jaipur: when the text before the separator
      holds no ` in ` (also not one running into the separator) and the
      text after it holds none, the destination is the text after it. */
  lemma DestinationAfterIn(a: string, d: string)
    requires !Contains(a + " in", InSeparator)
    requires !Contains(d, InSeparator)
    ensures Destination(a + InSeparator + d) == d
  {
    var s := a + InSeparator + d;
    PrefixSlices(a, InSeparator, d);
    assert OccursAt(s, InSeparator, |a|);
    assert s[..|a| + 3] == a + " in";
    forall k: nat | k < |a| ensures !OccursAt(s, InSeparator, k) {
      OccursInPrefix(s, InSeparator, |a| + 3, k);
    }
    IndexOfIsFirst(s, InSeparator);
    LastSplitPieceAfter(a, InSeparator, d);
  }

  /** The booking-confirmed subtitle: the destination in place of
      `{destination}`. */
  function ConfirmedSubtitle(t: Translations, plan: ItineraryPlan): string
  {
    ReplaceFirst(t.booking_confirmed_subtitle, DestinationPlaceholder, Destination(plan.tripTitle))
  }

  /** A subtitle template holding `{destination}` after text without `{`
      names the destination in that place, provided it holds no `$`. */
  lemma ConfirmedSubtitleShowsDestination(a: string, b: string, t: Translations, plan: ItineraryPlan)
    requires t.booking_confirmed_subtitle == a + DestinationPlaceholder + b
    requires forall k :: 0 <= k < |a| ==> a[k] != '{'
    requires forall k :: 0 <= k < |Destination(plan.tripTitle)| ==> Destination(plan.tripTitle)[k] != '$'
    ensures ConfirmedSubtitle(t, plan) == a + Destination(plan.tripTitle) + b
  {
    var d := Destination(plan.tripTitle);
    PlaceholderReplaced(a, DestinationPlaceholder, b, d);
    SubstitutionVerbatim(d, DestinationPlaceholder, a, b);
  }

  /** The confirmation line as written: with a user, `replace('{email}',
      user.email)`, which reads `$` patterns in the address; without one,
      the fixed English text. */
  function ConfirmationAsWritten(t: Translations, user: Option<User>): (r: string)
    ensures user.None? ==> r == DefaultConfirmation
  {
    match user
    case None => DefaultConfirmation
    case Some(u) => ReplaceFirst(t.booking_confirmed_message, EmailPlaceholder, u.email)
  }

  /** An address holding `$&` brings the placeholder back instead of
      itself: with the template "Sent to {email}." the address
      `a$&b@x.io` reads "Sent to a{email}b@x.io.", not the address. */
  lemma DollarInEmailMangled(a: string, b: string, pre: string, post: string, t: Translations, u: User)
    requires t.booking_confirmed_message == a + EmailPlaceholder + b
    requires forall k :: 0 <= k < |a| ==> a[k] != '{'
    requires u.email == pre + "$&" + post
    requires forall k :: 0 <= k < |pre| ==> pre[k] != '$'
    requires forall k :: 0 <= k < |post| ==> post[k] != '$'
    ensures ConfirmationAsWritten(t, Some(u)) == a + pre + EmailPlaceholder + post + b
    ensures ConfirmationAsWritten(t, Some(u)) != a + u.email + b
  {
    ReplacedByMatch(a, EmailPlaceholder, b, pre, post, ConfirmationAsWritten(t, Some(u)));
  }

  /** The `$&` in a replacement brings back the matched text. */
  lemma ReplacedByMatch(a: string, pat: string, b: string, pre: string, post: string, r: string)
    requires |pat| > 2
    requires forall k :: 0 <= k < |a| ==> a[k] != pat[0]
    requires forall k :: 0 <= k < |pre| ==> pre[k] != '$'
    requires forall k :: 0 <= k < |post| ==> post[k] != '$'
    requires r == ReplaceFirst(a + pat + b, pat, pre + "$&" + post)
    ensures r == a + pre + pat + post + b
    ensures r != a + (pre + "$&" + post) + b
  {
    PlaceholderReplaced(a, pat, b, pre + "$&" + post);
    SubstitutionOfMatch(pre, post, pat, a, b);
    assert |a + pre + pat + post + b| != |a + (pre + "$&" + post) + b|;
  }

  /** `String.prototype.replace` with a replacer function: the first
      occurrence of `pat` is replaced by `rep` taken literally. */
  function ReplaceFirstLiteral(s: string, pat: string, rep: string): (r: string)
    ensures IndexOf(s, pat).None? ==> r == s
  {
    match IndexOf(s, pat)
    case None => s
    case Some(i) => s[..i] + rep + s[i + |pat|..]
  }

  /** The confirmation line with the address inserted literally. */
  function Confirmation(t: Translations, user: Option<User>): (r: string)
    ensures user.None? ==> r == DefaultConfirmation
  {
    match user
    case None => DefaultConfirmation
    case Some(u) => ReplaceFirstLiteral(t.booking_confirmed_message, EmailPlaceholder, u.email)
  }

  /** Whatever the address, it appears verbatim where the template has
      `{email}`. */
  lemma ConfirmationShowsEmail(a: string, b: string, t: Translations, u: User)
    requires t.booking_confirmed_message == a + EmailPlaceholder + b
    requires forall k :: 0 <= k < |a| ==> a[k] != '{'
    ensures Confirmation(t, Some(u)) == a + u.email + b
  {
    PlaceholderReplaced(a, EmailPlaceholder, b, u.email);
    var s := a + EmailPlaceholder + b;
    assert s[..|a|] == a && s[|a| + |EmailPlaceholder|..] == b;
  }

  /** For an address without `$` the corrected line and the line as
      written agree. */
  lemma ConfirmationAgreesWithoutDollar(t: Translations, u: User)
    requires forall k :: 0 <= k < |u.email| ==> u.email[k] != '$'
    ensures Confirmation(t, Some(u)) == ConfirmationAsWritten(t, Some(u))
  {
    match IndexOf(t.booking_confirmed_message, EmailPlaceholder)
    case None =>
    case Some(i) =>
      var s := t.booking_confirmed_message;
      SubstitutionVerbatim(u.email, EmailPlaceholder, s[..i], s[i + |EmailPlaceholder|..]);
  }

  // ---------------------------------------------------------------------
  // The view choice

  /** What the component shows: the booking-confirmed screen, or the plan
      with its day count. */
  datatype Screen =
    | ConfirmedScreen(subtitle: string, message: string)
    | PlanScreen(title: string, daysText: string)

  /** Only the `booked` status shows the confirmation; `idle` and the
      never-assigned `failed` both show the plan. */
  function Render(plan: ItineraryPlan, user: Option<User>, status: BookingStatus, t: Translations): (r: Screen)
    ensures r.ConfirmedScreen? <==> status == Booked
    ensures r.ConfirmedScreen? ==> r.message == ConfirmationAsWritten(t, user) && r.subtitle == ConfirmedSubtitle(t, plan)
    ensures r.PlanScreen? ==> r.title == plan.tripTitle && r.daysText == DaysText(t, plan)
  {
    if status == Booked then ConfirmedScreen(ConfirmedSubtitle(t, plan), ConfirmationAsWritten(t, user))
    else PlanScreen(plan.tripTitle, DaysText(t, plan))
  }

  /** The same view with the corrected confirmation line: a booked screen
      shows the address verbatim. */
  function RenderCorrected(plan: ItineraryPlan, user: Option<User>, status: BookingStatus, t: Translations): (r: Screen)
    ensures r.ConfirmedScreen? <==> status == Booked
    ensures r.ConfirmedScreen? ==> r.message == Confirmation(t, user) && r.subtitle == ConfirmedSubtitle(t, plan)
    ensures r.PlanScreen? ==> r == Render(plan, user, status, t)
  {
    if status == Booked then ConfirmedScreen(ConfirmedSubtitle(t, plan), Confirmation(t, user))
    else Render(plan, user, status, t)
  }

  // ---------------------------------------------------------------------
  // The share button

  class ItineraryView {
    var shareFeedback: string

    constructor()
      ensures shareFeedback == ""
    {
      shareFeedback := "";
    }

    /** `handleShare` as written: when `btoa` throws nothing is copied
        and the feedback stays as it was; otherwise the link (the page
        address and the raw token) is copied, and the feedback reports
        whether the clipboard accepted it. */
    method ShareAsWritten(plan: Json.Value, pageAddress: string, copied: bool, t: Translations)
      returns (link: Option<string>)
      modifies this
      ensures link.None? <==> ShareLink.ShareTokenAsWritten(plan).None?
      ensures link.Some? ==> link.value == pageAddress + ShareLink.SearchAsWritten(ShareLink.ShareTokenAsWritten(plan).value)
      ensures link.None? ==> shareFeedback == old(shareFeedback)
      ensures link.Some? ==> shareFeedback == if copied then t.share_link_copied else CopyFailed
    {
      match ShareLink.ShareTokenAsWritten(plan) {
        case None =>
          link := None;
        case Some(token) =>
          link := Some(pageAddress + ShareLink.SearchAsWritten(token));
          shareFeedback := if copied then t.share_link_copied else CopyFailed;
      }
    }

    /** The share button with the corrected link: every plan gets a link,
        and that link loads the same plan back. */
    method Share(plan: Json.Value, pageAddress: string, copied: bool, t: Translations)
      returns (link: string)
      modifies this
      ensures link == pageAddress + ShareLink.ShareSearch(plan)
      ensures shareFeedback == if copied then t.share_link_copied else CopyFailed
    {
      link := pageAddress + ShareLink.ShareSearch(plan);
      shareFeedback := if copied then t.share_link_copied else CopyFailed;
    }

    /** The timer that clears the feedback after two seconds. */
    method FeedbackExpired()
      modifies this
      ensures shareFeedback == ""
    {
      shareFeedback := "";
    }

    /** The feedback line is shown only while it is non-empty. */
    function FeedbackShown(): (r: Option<string>)
      reads this
      ensures r.Some? <==> shareFeedback != ""
      ensures r.Some? ==> r.value == shareFeedback
    {
      if shareFeedback == "" then None else Some(shareFeedback)
    }
  }
}
