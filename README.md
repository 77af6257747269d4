# Personalized Trip Planner: the client-side core in Dafny

The trip planner is a React application. A signed-in traveller fills in a
trip form (destination, number of days, budget in rupees, interests), the
application asks Google's Gemini model for an itinerary in one of five
languages, and shows the plan. The plan can be "booked" in a simulated
payment dialog, or shared as a link whose query carries the plan's JSON text
in Base64.

This project models the parts of that client that make decisions or keep
state:

- `TripForm` (trip_form.dfy): the form's fields, the duration clamp, the
  interest toggle and the ordered submit check.
- `Login` (login.dfy): the sign-in form, its blank-field check and the
  unanchored e-mail pattern `\S+@\S+\.\S+`.
- `App` (app.dfy): the page state (`itinerary`, `isLoading`, `error`,
  `bookingStatus`, `isPaymentModalOpen`) as a class. Its handlers are
  methods. The asynchronous generate handler is split into a start event
  and a finish event.
- `ItineraryDisplay` (itinerary_display.dfy): the view choice between
  the plan and the booking confirmation, the texts it fills in (day count,
  destination, confirmation e-mail) and the share button.
- `GeminiService` (gemini_service.dfy): the missing-key check at load,
  the language names, the interest list, the response schema with its
  `required` lists, and the trim-parse-or-fail handling of the reply.
- `LoadingSpinner` (loading_spinner.dfy): the rotating message index,
  including what `% 0` does with an empty message list.
- `Types` (types.dfy): the records of `types.ts`.

Supporting modules model the library behaviour the core relies on:

- `Text`: `trim`, `indexOf`, `replace` with a string pattern, including its
  `$` patterns, `split(...).pop()` and `join`.
- `JsNumbers`: `parseInt` and `parseFloat` over decimal text.
- `Json`: an integer-only `JSON.stringify` and `JSON.parse`.
- `PlanJson`: plans as JSON values.
- `Base64`: `btoa` and `atob` per section 4 of RFC 4648 and the WHATWG
  forgiving-base64 decode.
- `Utf8`: UTF-8 per RFC 3629.
- `Url`: `URLSearchParams.get` per section 5.1 of the WHATWG URL standard,
  and `encodeURIComponent` on Base64 text.
- `ShareLink`: the share link as written and a corrected one.
- `I18n`: the translated texts, passed in as a record.

Points of the code's behaviour that the model keeps as they are:

- There is no stale-response guard: a reply that arrives after a reset is
  stored (`App.ResetThenLateReply`).
- The duration clamp happens when the field is edited, not in the submit
  check.
- The missing-destination and no-interests conditions share one error.
- A shared link that loads leaves an earlier error in place.
- The page reads a shared link with `atob` and `JSON.parse` only
  (`App.AppContent.LoadShared`); the corrected link, with a UTF-8 step, is
  read by the separate `App.AppContent.LoadSharedCorrected`.

## Model

| member | source | states |
|---|---|---|
| Types.LanguagesAreTheFiveCodes | types.ts:1 | the language type has exactly five values, each with its own two-letter code; a code reads back as its language, and no string other than en, hi, ta, te, ml is a code |
| Types.LanguageOfCode | types.ts:1 | a string read as a language is that language's code |
| Types.Code | types.ts:1 | every language code is two letters |
| Types.WithLanguage | App.tsx:55 | the full preferences are the form's destination, duration, budget and interests, in list order, together with the current language |
| TripForm.ClampDuration | components/TripForm.tsx:71 | the duration after an edit is at least 1; a typed whole number of at least 1 is kept; text that does not parse, 0 or a negative number becomes 1 |
| TripForm.ClampKeepsTypedDays | components/TripForm.tsx:71 | any positive day count typed in is kept; there is no upper bound |
| TripForm.Without | components/TripForm.tsx:22 | filtering removes every copy of the interest and changes no other count |
| TripForm.WithoutConcat | components/TripForm.tsx:22 | filtering works piece by piece, so the entries that stay keep their order |
| TripForm.WithoutAbsent | components/TripForm.tsx:22 | filtering out an interest the list lacks changes nothing |
| TripForm.Toggle | components/TripForm.tsx:20-23 | after a toggle the interest is present exactly when it was absent before; every other interest keeps its count |
| TripForm.ToggleAppends | components/TripForm.tsx:22 | toggling an absent interest appends it at the end |
| TripForm.ToggleRemovesAll | components/TripForm.tsx:22 | toggling a present interest removes every occurrence, and the rest keep their order |
| TripForm.ToggleTwice | components/TripForm.tsx:21-23 | toggling the same interest twice gives back a list that lacked it |
| TripForm.ToggleKeepsNoDuplicates | components/TripForm.tsx:21-23 | toggling keeps a list free of repeats |
| TripForm.Decide | components/TripForm.tsx:26-41 | a blank trimmed destination or no interests gives the generic error; only when both are present does a budget that is NaN or below 500 give the budget error; otherwise the untrimmed destination, duration, parsed budget and interests are sent unchanged |
| TripForm.WholeBudgetBoundary | components/TripForm.tsx:34-37 | with a destination and an interest, a whole-number budget is sent exactly when it is at least 500, so exactly 500 is accepted; the budget sent is its value |
| TripForm.TripFormState.constructor | components/TripForm.tsx:13-17 | the form starts with an empty destination, 5 days, budget "5000", no interests and no error |
| TripForm.TripFormState.EditDestination | components/TripForm.tsx:55 | the destination becomes the typed text; nothing else changes |
| TripForm.TripFormState.EditDuration | components/TripForm.tsx:71 | the duration becomes the clamped value; nothing else changes |
| TripForm.TripFormState.EditBudget | components/TripForm.tsx:88 | the budget text becomes the typed text; nothing else changes |
| TripForm.TripFormState.ToggleInterest | components/TripForm.tsx:20-23 | the interests become the toggled list; nothing else changes |
| TripForm.TripFormState.Submit | components/TripForm.tsx:26-41 | the error text is the decision's (empty on success); preferences are handed on exactly when the decision sends them; the fields are unchanged |
| Login.ShapeGivesPattern | components/Login.tsx:20 | an `@` and a later `.`, with a non-whitespace character before the `@`, one or more between them and one after the dot, make the pattern match |
| Login.PatternGivesShape | components/Login.tsx:20 | any match of the pattern has such an `@` and `.` |
| Login.EmailShapeIsPattern | components/Login.tsx:20 | the local form and the unanchored pattern accept the same strings |
| Login.NothingAfterDot | components/Login.tsx:20 | "a@b." and "a@b" are refused |
| Login.SurroundingTextAllowed | components/Login.tsx:20 | "x a@b.c y" is accepted, because the match is unanchored |
| Login.Decide | components/Login.tsx:14-26 | a blank trimmed name, e-mail or password gives the all-fields error; only then is an e-mail the pattern rejects refused; otherwise the user signed in is the untrimmed name and e-mail, without the password |
| Login.PasswordOnlyNeedsContent | components/Login.tsx:16 | any two non-blank passwords give the same outcome |
| Login.LoginForm.constructor | components/Login.tsx:7-10 | all three fields and the error start empty |
| Login.LoginForm.EditName | components/Login.tsx:46 | the name becomes the typed text; nothing else changes |
| Login.LoginForm.EditEmail | components/Login.tsx:63 | the e-mail becomes the typed text; nothing else changes |
| Login.LoginForm.EditPassword | components/Login.tsx:80 | the password becomes the typed text; nothing else changes |
| Login.LoginForm.Submit | components/Login.tsx:14-26 | the error text is the outcome's; a user is signed in exactly when the outcome allows it, with the untrimmed name and e-mail |
| LoadingSpinner.Next | components/LoadingSpinner.tsx:12 | with at least one message a tick gives an index below the message count; with none the index becomes NaN |
| LoadingSpinner.AfterTicks | components/LoadingSpinner.tsx:11-13 | n ticks (at most one round) from index k give k + n, wrapped once past the end |
| LoadingSpinner.NextStep | components/LoadingSpinner.tsx:12 | one tick moves to the next index, or to 0 past the last one |
| LoadingSpinner.Cycles | components/LoadingSpinner.tsx:11-13 | from 0 the spinner reaches every index in turn, and after as many ticks as there are messages it is back where it started |
| LoadingSpinner.EmptyStaysNaN | components/LoadingSpinner.tsx:12 | with no messages the index is NaN after the first tick and stays NaN |
| LoadingSpinner.MessageAt | components/LoadingSpinner.tsx:22 | a message is shown exactly when the index is a number below the list length, and it is the message at that index |
| LoadingSpinner.Spinner.constructor | components/LoadingSpinner.tsx:8 | the index starts at 0 |
| LoadingSpinner.Spinner.Tick | components/LoadingSpinner.tsx:11-13 | a tick replaces the index by the next one for the current message count |
| LoadingSpinner.Spinner.ChangeMessages | components/LoadingSpinner.tsx:7-16 | a language change swaps the message list and keeps the index |
| LoadingSpinner.SwitchThenTick | components/LoadingSpinner.tsx:7-22 | after a switch to a new non-empty list, the next tick moves index k to (k + 1) mod the new length, and that message is shown |
| GeminiService.LoadService | services/geminiService.ts:4-8 | the service loads exactly when an API key is set and non-empty; otherwise loading fails with the missing-key message |
| GeminiService.LanguageNamesDistinct | services/geminiService.ts:98-105 | the five languages have five different names |
| GeminiService.InterestList | services/geminiService.ts:113 | no interests give an empty list text |
| GeminiService.InterestListKeepsOrder | services/geminiService.ts:113 | each interest appears in the joined text at its place in list order, followed by ", " unless it is the last one |
| GeminiService.BuildRequest | services/geminiService.ts:96-141 | the request carries the destination, duration, budget, the joined interests, the English name of the requested language (`languageMap[language]`) and the response schema |
| GeminiService.RequestNamesLanguage | services/geminiService.ts:98-117 | preferences in two different languages give two different requests |
| GeminiService.ResponseSchemaRequiresAll | services/geminiService.ts:10-92 | every object in the schema requires all of its properties, in declaration order: plan 5, accommodation 3, transportation 1, day 4, activity 4 |
| GeminiService.RequiredField | services/geminiService.ts:31-91 | a value conforming to an object schema has every required property, and that property conforms to its own schema |
| GeminiService.ConformingValueIsPlan | services/geminiService.ts:10-92 | every value that conforms to the response schema reads as an itinerary plan |
| GeminiService.PlanConforms | services/geminiService.ts:10-92 | the JSON form of every plan conforms to the response schema |
| GeminiService.ParseReply | services/geminiService.ts:143-148 | the call succeeds exactly when there was a reply whose trimmed text parses as JSON; every failure has the one fixed message |
| GeminiService.ReplyRoundTrip | services/geminiService.ts:143-145 | whitespace around the JSON text of a value is trimmed away and the value comes back |
| GeminiService.ReplyOf | services/geminiService.ts:143-145 | whatever parses after trimming is returned as it is |
| GeminiService.NoSchemaCheck | services/geminiService.ts:144-145 | a reply holding a value that is not an object, so not a plan, is still returned |
| GeminiService.ReplyOfStringify | services/geminiService.ts:143-145 | the JSON text of every well-formed value is returned as that value |
| GeminiService.StringifyEnds | services/geminiService.ts:143 | JSON text neither starts nor ends with whitespace, so trimming leaves it alone |
| PlanJson.PlanRoundTrip | types.ts:40-46 | reading the JSON form of a plan gives the plan back |
| PlanJson.DayRoundTrip | types.ts:23-28 | reading the JSON form of a day gives the day back |
| PlanJson.ActivityRoundTrip | types.ts:16-21 | reading the JSON form of an activity gives the activity back; the form has exactly its four fields |
| PlanJson.AccommodationRoundTrip | types.ts:30-34 | reading the JSON form of an accommodation gives it back |
| PlanJson.PlanToJsonWellFormed | types.ts:40-46 | the JSON form of a plan has no repeated keys |
| Json.ParseStringify | components/ItineraryDisplay.tsx:19 | `JSON.parse` of the text `JSON.stringify` gives returns the value |
| Json.ValueRoundTrip | components/ItineraryDisplay.tsx:19 | the text of a value is parsed back to the value, whatever text follows it |
| Json.EscapeTextRoundTrip | components/ItineraryDisplay.tsx:19 | the escaped form of a string, closed by a quote, is read back as that string |
| JsNumbers.ParseIntOfIntText | components/TripForm.tsx:71 | `parseInt` reads the decimal text of an integer as that integer |
| JsNumbers.ParseFloatOfNatText | components/TripForm.tsx:28 | `parseFloat` reads the decimal text of a whole number as that number |
| Text.Trim | components/TripForm.tsx:30 | the trimmed text is a slice with only whitespace cut from both ends, and it neither starts nor ends with whitespace |
| Text.TrimEmptyIffAllWhitespace | components/TripForm.tsx:30 | a text trims to nothing exactly when it is all whitespace |
| Text.TrimAround | services/geminiService.ts:143 | text without whitespace at either end comes out of trimming unchanged, whatever whitespace surrounds it |
| Text.IndexOfIsFirst | components/ItineraryDisplay.tsx:34 | the found index is the first occurrence, and none is found exactly when there is none |
| Text.ReplaceFirst | components/ItineraryDisplay.tsx:34 | without the pattern the text is unchanged; with it, the text before the first occurrence and the text after it are kept |
| Text.PlaceholderReplaced | components/ItineraryDisplay.tsx:34 | replacing the first placeholder keeps the text before and after it and inserts the replacement with its `$` patterns expanded |
| Text.SubstitutionVerbatim | components/ItineraryDisplay.tsx:34 | a replacement without `$` is inserted as it is |
| Text.SubstitutionOfMatch | components/ItineraryDisplay.tsx:34 | a `$&` in a replacement inserts the matched placeholder |
| Text.LastSplitPieceShape | components/ItineraryDisplay.tsx:41 | the last piece of a split is a suffix of the text holding no separator |
| Text.JoinKeepsItemsInOrder | services/geminiService.ts:113 | each item of a join appears at its offset, followed by the separator unless it is last |
| Base64.DecodeEncode | components/ItineraryDisplay.tsx:20 | decoding the Base64 encoding of any bytes gives the bytes back |
| Base64.EncodeShape | components/ItineraryDisplay.tsx:20 | the encoding of n bytes has 4·⌈n/3⌉ characters, all from A–Z, a–z, 0–9, `+`, `/`, `=` |
| Base64.AtobBtoa | App.tsx:31 | `atob` of `btoa` of any Latin-1 text gives the text back |
| Base64.BtoaShape | components/ItineraryDisplay.tsx:20 | a `btoa` token of n characters has 4·⌈n/3⌉ characters from the token alphabet |
| Base64.Btoa | components/ItineraryDisplay.tsx:20 | `btoa` fails exactly when the text holds a character above U+00FF |
| Base64.ValueOfCharOf | components/ItineraryDisplay.tsx:20 | the alphabet table is inverted by the decoding table |
| Base64.FromToSextets | components/ItineraryDisplay.tsx:20 | regrouping 6-bit groups into bytes undoes the split into 6-bit groups |
| Utf8.DecodeEncode | components/ItineraryDisplay.tsx:19-20 | the UTF-8 bytes of any text decode back to it |
| Url.SingleParam | App.tsx:27-28 | a query with one plain name and a value without `&` reads back as the form-decoded value |
| Url.FormDecodeRawToken | App.tsx:27-28 | a raw Base64 token reads back with every `+` turned into a space |
| Url.FormDecodeEscapeToken | App.tsx:27-28 | an escaped Base64 token reads back unchanged |
| ShareLink.ShareTokenAsWritten | components/ItineraryDisplay.tsx:19-20 | there is no token exactly when the plan's JSON text holds a character above U+00FF |
| ShareLink.WideCharacterBlocksSharing | components/ItineraryDisplay.tsx:20 | a plan holding a string with any character above U+00FF cannot be shared |
| ShareLink.RawTokenAltered | components/ItineraryDisplay.tsx:21 | a token holding `+`, placed in the query unescaped, does not come back as itself |
| ShareLink.TokenWithPlus | components/ItineraryDisplay.tsx:19-20 | the plan made of the string `a>` has the token `ImE+Ig==` |
| ShareLink.PlusInTokenCorruptsLink | App.tsx:27-37 | the as-written link with that token loads as corrupted |
| ShareLink.ShareToken | components/ItineraryDisplay.tsx:19-20 | the corrected token exists for every plan and uses only Base64 characters |
| ShareLink.ShareRoundTrip | App.tsx:27-33 | every well-formed value, whatever characters it holds, loads back from its own corrected link |
| ShareLink.NoParamNoLink | App.tsx:28-29 | without the parameter the itinerary is left alone |
| ItineraryDisplay.DaysTextShowsCount | components/ItineraryDisplay.tsx:65 | the day count shown is the number of daily plans, in decimal, in place of `{days}` |
| ItineraryDisplay.Destination | components/ItineraryDisplay.tsx:41 | the destination is a suffix of the title that holds no " in " |
| ItineraryDisplay.DestinationOfPlainTitle | components/ItineraryDisplay.tsx:41 | a title without " in " is its own destination |
| ItineraryDisplay.DestinationAfterIn | components/ItineraryDisplay.tsx:41 | in a title "… in X", where neither part holds another " in ", the destination is X |
| ItineraryDisplay.ConfirmedSubtitleShowsDestination | components/ItineraryDisplay.tsx:41 | the confirmed subtitle names the destination where the template has `{destination}` |
| ItineraryDisplay.ConfirmationAsWritten | components/ItineraryDisplay.tsx:33-35 | without a user the confirmation is the fixed English text |
| ItineraryDisplay.DollarInEmailMangled | components/ItineraryDisplay.tsx:34 | an address holding `$&` shows the placeholder again instead of the address |
| ItineraryDisplay.ReplacedByMatch | components/ItineraryDisplay.tsx:34 | replacing a placeholder by text holding `$&` puts the placeholder back, so the result is not the text inserted literally |
| ItineraryDisplay.ReplaceFirstLiteral | components/ItineraryDisplay.tsx:34 | a text without the placeholder is unchanged |
| ItineraryDisplay.Confirmation | components/ItineraryDisplay.tsx:33-35 | without a user the corrected confirmation is the fixed English text |
| ItineraryDisplay.ConfirmationShowsEmail | components/ItineraryDisplay.tsx:34 | the corrected confirmation shows any address verbatim where the template has `{email}` |
| ItineraryDisplay.ConfirmationAgreesWithoutDollar | components/ItineraryDisplay.tsx:34 | for an address without `$` the corrected line and the line as written agree |
| ItineraryDisplay.Render | components/ItineraryDisplay.tsx:32-65 | the confirmation is shown exactly when the status is booked, with the destination subtitle and the confirmation line as written (`replace` with its `$` patterns); otherwise the plan's title and day count |
| ItineraryDisplay.RenderCorrected | components/ItineraryDisplay.tsx:32-65 | the corrected view: booked shows the confirmation with the address inserted verbatim; any other status shows the same plan screen as the page as written |
| ItineraryDisplay.ItineraryView.constructor | components/ItineraryDisplay.tsx:16 | the share feedback starts empty |
| ItineraryDisplay.ItineraryView.ShareAsWritten | components/ItineraryDisplay.tsx:18-29 | no link is made exactly when `btoa` fails, and then the feedback is unchanged; otherwise the link is the page address with `?itinerary=` and the raw token, and the feedback says whether the copy worked |
| ItineraryDisplay.ItineraryView.Share | components/ItineraryDisplay.tsx:18-29 | the corrected link is the page address with the corrected query, and the feedback says whether the copy worked |
| ItineraryDisplay.ItineraryView.FeedbackExpired | components/ItineraryDisplay.tsx:24 | the feedback is cleared when its timer fires |
| ItineraryDisplay.ItineraryView.FeedbackShown | components/ItineraryDisplay.tsx:77-80 | the feedback line is shown exactly when the feedback is non-empty, and it shows that text |
| App.ObjectsAreTruthy | App.tsx:102 | every plan object counts as a present itinerary |
| App.AppContent.constructor | App.tsx:16-20 | no plan, not loading, no error, booking idle, dialog closed |
| App.AppContent.LoadShared | App.tsx:25-39 | the link is read as written (`atob`, then `JSON.parse`): a link that loads gives the plan without loading; a corrupted link sets the link-corrupted message and keeps the plan; no link changes nothing |
| App.AppContent.LoadSharedCorrected | App.tsx:25-39 | the corrected mount effect (Base64, UTF-8, JSON) with the same three outcomes |
| App.AppContent.StartGenerate | App.tsx:42-55 | generation starts loading, clears the error and the plan and sets the booking to idle; the request carries the current language |
| App.AppContent.FinishGenerate | App.tsx:56-63 | a result becomes the plan; a failure sets the translated generation error and keeps the plan; loading ends either way |
| App.AppContent.Reset | App.tsx:66-71 | no plan, no error, not loading, booking idle, dialog closed |
| App.AppContent.OpenPaymentModal | App.tsx:106 | only the dialog flag changes, to open |
| App.AppContent.ClosePaymentModal | App.tsx:132 | only the dialog flag changes, to closed |
| App.AppContent.ConfirmPayment | App.tsx:79-83 | the dialog closes and the booking is confirmed; the plan is unchanged |
| App.AppContent.View | App.tsx:85-136 | without a user the login page; with one, the plan exactly when a truthy itinerary is present, otherwise the home page with the spinner while loading and the error line when there is an error |
| App.ResetThenLateReply | App.tsx:54-71 | a reply that arrives after a reset is still shown as the plan |
| App.FailedGeneration | App.tsx:58-63 | a failed generation shows the form, not the spinner, with the translated error |
| App.OpenSharedLink | App.tsx:25-39 | on the corrected page, opening a corrected shared link shows its plan at once, with the booking idle and the dialog closed |
| App.OpenLinkWithPlus | App.tsx:25-39 | as written, opening the link shared for the plan `"a>"` shows the start page with the corrupted-link message |

## Left out

- The Gemini call itself: the client, the model name and the temperature. A reply is a parameter, either its text or a failed call.
- The prompt prose beyond the language name and the interest join. It is free text for the model, with no contract to check.
- `window.history.pushState` in the generate and reset handlers. The page address is not part of the state.
- Clipboard writes are a parameter saying whether the copy worked. The 2-second and 2.5-second timers are separate events: `FeedbackExpired` and `Tick`.
- Floating-point costs and `toFixed(2)`: costs and day numbers are whole numbers.
- JsNumbers.ParseFloat: reads decimal text, a fraction and an exponent exactly as a real number. It does not model rounding to the nearest double.
- Json.Parse: rejects numbers with a fraction or an exponent, and `\u` escapes of surrogate halves, because strings here are sequences of Unicode scalar values, not UTF-16.
- Url.FormDecode: keeps a `%XX` escape of a byte above 0x7F as text instead of decoding UTF-8 bytes. Every link the model builds uses ASCII only.
- The translation tables and the auth and language contexts are not part of this model. Translated texts and the signed-in user are parameters.
- components/Header.tsx, components/Footer.tsx and components/PaymentModal.tsx: their effects go through the `App` handlers modelled here.
- The screens render the plan's title and day count, not the per-day lists, the costs or the accommodation and transport cards.
- App.AppContent.View: the typed plan fields are not read when the itinerary is a value other than a plan. The page would fail while rendering in that case.

## Findings

| source | as written | input that shows it | evidently intended | confidence | as-written member | corrected member |
|---|---|---|---|---|---|---|
| components/ItineraryDisplay.tsx:20-21 with App.tsx:27-31 | the Base64 token is put in the query without escaping, and `URLSearchParams` reads each `+` as a space | the plan `"a>"` has the token `ImE+Ig==`, which comes back as `ImE Ig==` and loads as a corrupted link | the link loads the plan it was made from (escape the token with `encodeURIComponent`) | high, not executed | ShareLink.PlusInTokenCorruptsLink | ShareLink.ShareRoundTrip |
| components/ItineraryDisplay.tsx:20 | `btoa` of the JSON text throws on any character above U+00FF, and nothing catches it | a plan in Hindi, Tamil, Telugu or Malayalam, or one holding "₹" | every plan can be shared (encode the text as UTF-8 bytes before Base64) | high, not executed | ShareLink.WideCharacterBlocksSharing | ShareLink.ShareRoundTrip |
| components/ItineraryDisplay.tsx:34 | `replace('{email}', user.email)` expands `$` patterns in the address | the template "Sent to {email}." and the address `a$&b@x.io` show "Sent to a{email}b@x.io." | the address appears verbatim (a replacer function) | medium, not executed | ItineraryDisplay.DollarInEmailMangled | ItineraryDisplay.ConfirmationShowsEmail |
