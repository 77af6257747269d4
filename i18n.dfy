/** The translated texts the core reads from the current language's table.
    The tables themselves are not part of this model: every operation
    that shows a translated text takes the table as a parameter. */
module I18n {

  datatype Translations = Translations(
    form_error: string,
    form_budget_error_min: string,
    login_error_all_fields: string,
    login_error_invalid_email: string,
    error_generateItinerary: string,
    booking_confirmed_message: string,
    booking_confirmed_subtitle: string,
    itinerary_days_adventure: string,
    share_link_copied: string,
    loadingMessages: seq<string>)
}
