# FormValidator demo page, modelled in Dafny

The demo page of this repository carries three forms: registration, contact and checkout. Each sits behind a tab. One `FormValidator` object drives the page:

- it switches the tabs;
- it rewrites the card number, expiry date and CVV as they are typed;
- it keeps a character counter for the contact message;
- it checks the three forms on submit and marks every field with an error or as valid;
- it reports the number of errors or simulates the submission with a loading button;
- it resets all forms.

This project models that object and proves what it promises.

The model has six modules:

- `JsText` holds the JavaScript built-ins the object relies on:
  - `\s` white space and `trim()`;
  - the removal of white space or of non-digits;
  - `parseInt` without a radix, with NaN as `None`;
  - the decimal rendering of a count.
- `Validators` holds `validateEmail`, `validatePassword`, `validateExpiryDate` and `validateCVV` as predicates and functions.
  - `validateCardNumber` is a method that keeps the source's right-to-left loop. It is proved equal to the Luhn formula of ISO/IEC 7812-1, Annex B.
  - The expiry check takes the current year (modulo 100) and month as parameters.
- `Inputs` holds the card-number, expiry-date and CVV formatters, and the message counter's colour band.
- `Presenter` models one input element and its error element: the `error`, `valid` and `shake` classes and the message. It also holds `showError`, `clearError`, the end of the shake timer, and the reset of one field.
- `Forms` holds:
  - the fields of each form;
  - the chain of tests each submit handler runs on each field;
  - the verdict map (one verdict per field, from the page's current contents);
  - the marking of a whole form;
  - the `errors` list and the summary text.
- `App` holds the class `FormValidator`. Its fields are:
  - the field texts, the checkbox, and the field views;
  - the tab and panel `active` classes;
  - the result banner, the counter, and the submit buttons;
  - the pending submissions and the clock reading.

  Every listener, and every method of the source that changes the page, is a method of this class. Each changes only what the browser would change and keeps the page invariant `Valid()`. The validators are predicates and functions of `Validators`, and `validateCardNumber` is a method of that module. The `init` and `setup*` methods only attach listeners; they are not modelled apart from the listeners themselves.

The three submit handlers share one structure:

1. run each field's tests in page order, with no short-circuit;
2. mark the field with `showError` or `clearError`;
3. push an entry per failure;
4. then either start the submission or show the count.

`HandleSubmit` models all three. It loops over the form's fields with methods proved against the verdict map.

On an untouched registration form, the handler reports six errors, not seven. The two empty passwords are equal, so the confirmation passes (`Forms.EmptyRegistrationFails`). The code is followed here. The test at tests/error-handling.spec.js:266 expects seven.

## Model

| member | source | states |
|---|---|---|
| JsText.RemoveSpaces | demo-app/script.js:145 | `replace(/\s/g, '')` keeps no white space and never lengthens the text |
| JsText.KeepDigits | demo-app/script.js:106 | `replace(/[^0-9]/g, '')` keeps only ASCII digits and never lengthens the text |
| JsText.KeepDigitsOfDigits | demo-app/script.js:106 | keeping the digits gives the text back exactly when it is all digits |
| JsText.KeepDigitsOfRemoveSpaces | demo-app/script.js:90 | removing white space before keeping the digits changes nothing |
| JsText.Trim | demo-app/script.js:221 | `x.trim()` is never longer than `x`, and its result neither starts nor ends with white space |
| JsText.TrimEmptyIffBlank | demo-app/script.js:221 | `!x.trim()` holds exactly when every character is white space |
| JsText.ParseInt | demo-app/script.js:264 | `parseInt` without a radix reads a blank text as NaN, and gives a negative value only after a leading '-' |
| JsText.ParseIntDecimal | demo-app/script.js:177-178 | `parseInt` reads a non-empty string of ASCII digits as its decimal value |
| JsText.ParseIntOneChar | demo-app/script.js:152 | `parseInt` of one character is its digit value for an ASCII digit and NaN otherwise |
| JsText.NatToString | demo-app/script.js:287 | `${n}` renders a count as a non-empty run of ASCII digits, with no leading zero unless the count is 0 |
| JsText.NatToStringRoundTrip | demo-app/script.js:287 | the count rendered in the summary reads back, by `parseInt`, as the count |
| Validators.ValidateEmail | demo-app/script.js:123-126 | an accepted address is at least five characters long and neither starts nor ends with '@' or white space |
| Validators.SplitEmail | demo-app/script.js:123-126 | every accepted address is `local@host.tld` with three non-empty pieces free of white space and '@' |
| Validators.EmailAccepted | demo-app/script.js:123-126 | every `local@host.tld` with three such pieces is accepted |
| Validators.EmailNeedsAt | demo-app/script.js:123-126 | an address without '@' is rejected |
| Validators.EmailNeedsDotAfterAt | demo-app/script.js:123-126 | an address with no dot strictly inside the text after its first '@' is rejected (e.g. "usuario@dominio", "usuario@") |
| Validators.EmailNeedsLocalPart | demo-app/script.js:123-126 | an address starting with '@' (e.g. "@dominio.com") is rejected |
| Validators.ValidateExpiryDate | demo-app/script.js:168-185 | accepted exactly when the text has the MM/YY shape with MM in 01-12 and (year, month) is not before the current (year mod 100, month); the current month is still valid |
| Validators.ExpiryExamples | demo-app/script.js:168-185 | "12/25" is accepted in December 2025 and in June 2024 and rejected in January 2026; "01/20", "13/20" and "1/25" are rejected |
| Validators.PasswordThreshold | demo-app/script.js:128-130 | eight characters is the shortest accepted password: "12345678" is accepted, "1234567" and every shorter text are rejected, and lengthening an accepted password keeps it accepted |
| Validators.ValidateCVV | demo-app/script.js:187-189 | an accepted CVV is left unchanged by removing white space and by removing non-digits |
| Validators.CvvExamples | demo-app/script.js:187-189 | "123" and "1234" are accepted; "12", "12345", "abc" and "12a" are rejected |
| Validators.ValidateCardNumber | demo-app/script.js:143-166 | the right-to-left loop with `isEven` returns exactly `CardNumberValid` of the input |
| Validators.LuhnSumIsIso | demo-app/script.js:148-163 | the loop's sum is NaN exactly when a character is not an ASCII digit, and otherwise equals the ISO/IEC 7812-1 Luhn sum |
| Validators.CardNumberValidIff | demo-app/script.js:143-166 | a card number is accepted iff, with white space removed, it is 13 to 19 ASCII digits whose Luhn sum is a multiple of 10 |
| Validators.CardRejectsSingleDigitError | demo-app/script.js:143-166 | two digit strings that differ in exactly one place are never both accepted |
| Validators.CardExampleAccepted | demo-app/script.js:143-166 | "4111111111111111" is accepted |
| Validators.CardExampleRejected | demo-app/script.js:143-166 | "1234567890123456" is rejected |
| Inputs.FormatCardNumber | demo-app/script.js:89-93 | the field is empty exactly when no digit was typed, and removing its spaces gives exactly the typed digits |
| Inputs.CardFormatting | demo-app/script.js:89-93 | the card field is empty iff no digit was typed; otherwise it holds four digits and a space, repeated, ending in 1-4 digits, with one space per full group before the last; removing the spaces gives exactly the typed digits |
| Inputs.CardFormattingIdempotent | demo-app/script.js:89-93 | formatting a formatted card number changes nothing |
| Inputs.CardFormattingKeepsVerdict | demo-app/script.js:89-93 | the card check accepts the formatted field exactly when it accepts the typed digits alone |
| Inputs.FormatExpiry | demo-app/script.js:96-102 | the field has at most five characters, and its digits are the first four typed digits (all of them when fewer) |
| Inputs.ExpiryFormatting | demo-app/script.js:96-102 | the expiry field has at most 5 characters; with fewer than 2 digits it holds them unchanged, otherwise a '/' at index 2, an ASCII digit at every other index, and as digits the first four typed digits (all of them when fewer) |
| Inputs.ExpiryFormattingIdempotent | demo-app/script.js:96-102 | formatting a formatted expiry date changes nothing |
| Inputs.ExpiryFormattingShape | demo-app/script.js:96-102 | the formatted date has the MM/YY shape iff at least four digits were typed and the first two name a month |
| Inputs.ExpiryFormattingExample | demo-app/script.js:96-102 | typing "1225" gives "12/25" |
| Inputs.FormatCvv | demo-app/script.js:105-107 | the field holds only ASCII digits and is never longer than what was typed |
| Inputs.CvvFormatting | demo-app/script.js:105-107 | the CVV field keeps only the typed digits, is stable under re-formatting, and passes the CVV check iff 3 or 4 digits were typed |
| Inputs.Band | demo-app/script.js:63-74 | the counter's band ranks by how many of the thresholds 400 and 500 the count exceeds |
| Inputs.BandMonotone | demo-app/script.js:63-74 | the counter's band is red exactly beyond 500, grey exactly up to 400, and never drops as the count grows |
| Presenter.StatusOf | demo-app/script.js:192-204 | a field reads as invalid exactly when it carries `error`, and then shows its message |
| Presenter.ShowError | demo-app/script.js:192-198 | the field becomes invalid with the given message, consistently marked, and shakes |
| Presenter.ClearError | demo-app/script.js:200-204 | the field becomes valid with no message; a running shake goes on |
| Presenter.StopShake | demo-app/script.js:197 | the timer removes `shake` and leaves the status as it was |
| Presenter.ResetView | demo-app/script.js:445-451 | the reset leaves the field neutral, with no message, and keeps its shake class |
| Presenter.MarkingIdempotent | demo-app/script.js:192-204 | showing the same error twice, or clearing twice, is the same as doing it once |
| Forms.FieldsOfPartition | demo-app/script.js:212-218 | every field belongs to exactly one form, and each form lists its fields once |
| Forms.Missing | demo-app/script.js:221-390 | a field's "required" test fires only on a blank text (or the unchecked box), always fires on an empty text, and never fires for the confirmation |
| Forms.Required | demo-app/script.js:220-281 | the "required" failure of each field has a message and an entry |
| Forms.Wrong | demo-app/script.js:236-273 | every failure of a field's own check has a message and an entry |
| Forms.Check | demo-app/script.js:220-281 | every failure of a handler's chain of tests has a message and an entry |
| Forms.RequiredExactlyWhenMissing | demo-app/script.js:220-281 | a field reports its "required" failure exactly when it is missing; for trimmed fields, missing means blank (password, age and subject are not trimmed) |
| Forms.WrongIsNotRequired | demo-app/script.js:236-273 | no failure of a field's own check reads like its "required" failure |
| Forms.CheckReadsOwnForm | demo-app/script.js:212-218 | a field's verdict depends only on its own form's fields, so typing into another form never changes it |
| Forms.CheckReadsOwnEntries | demo-app/script.js:132-141 | a verdict reads only its own field, the password for the confirmation, and the checkbox for the terms |
| Forms.Verdicts | demo-app/script.js:207-402 | the verdict map gives every field a verdict, each failure with a message and an entry |
| Forms.VerdictsAgree | demo-app/script.js:207-402 | each field's entry in the verdict map is its handler's chain of tests |
| Forms.Marked | demo-app/script.js:222-225 | a failing field shows its message, a passing one is valid, and both are consistently marked |
| Forms.MarkFieldsStep | demo-app/script.js:220-281 | marking one more field is one update of that field's view |
| Forms.MarkFormStatus | demo-app/script.js:207-289 | after a submit each field of the form shows exactly its verdict, and every other form is untouched |
| Forms.MarkFormWellMarked | demo-app/script.js:192-204 | a submit keeps every field's classes and message in agreement |
| Forms.MarkFormIdempotent | demo-app/script.js:207-289 | submitting an unchanged form again marks its fields exactly as before |
| Forms.FirstNameVerdict | demo-app/script.js:220-226 | the first name fails as required when blank, else passes |
| Forms.LastNameVerdict | demo-app/script.js:228-234 | the last name fails as required when blank, else passes |
| Forms.EmailVerdict | demo-app/script.js:236-245 | the e-mail fails as required when blank, as invalid when the untrimmed text is rejected, else passes |
| Forms.PasswordVerdict | demo-app/script.js:247-256 | the password fails as required when empty (not trimmed), as too short under 8 characters, else passes |
| Forms.ConfirmPasswordVerdict | demo-app/script.js:258-261 | the confirmation fails exactly when it differs from the password |
| Forms.AgeVerdict | demo-app/script.js:263-273 | the age fails as required when empty, as out of range when `parseInt` gives a number below 18 or above 100 (NaN passes), else passes |
| Forms.TermsVerdict | demo-app/script.js:275-281 | the terms fail exactly when the box is unticked |
| Forms.ContactNameVerdict | demo-app/script.js:299-304 | the contact name fails as required when blank, else passes |
| Forms.ContactEmailVerdict | demo-app/script.js:306-314 | the contact e-mail fails as required when blank, as invalid when rejected, else passes |
| Forms.SubjectVerdict | demo-app/script.js:316-321 | the subject fails as required when empty (not trimmed), else passes |
| Forms.MessageVerdict | demo-app/script.js:323-331 | the message fails as required when blank, as too short under 10 characters, else passes |
| Forms.CardNumberVerdict | demo-app/script.js:348-357 | the card number fails as required when blank, as invalid when the card check rejects it, else passes |
| Forms.ExpiryDateVerdict | demo-app/script.js:359-368 | the expiry date fails as required when blank, as invalid or expired when the date check rejects it today, else passes |
| Forms.CvvVerdict | demo-app/script.js:370-379 | the CVV fails as required when blank, as invalid when not 3-4 digits, else passes |
| Forms.CardNameVerdict | demo-app/script.js:381-387 | the name on the card fails as required when blank, else passes |
| Forms.BillingAddressVerdict | demo-app/script.js:389-395 | the billing address fails as required when blank, else passes |
| Forms.Failing | demo-app/script.js:209 | the failing fields are never more than the fields checked |
| Forms.FailingMembers | demo-app/script.js:209 | a field is reported exactly when it was checked and fails |
| Forms.Entries | demo-app/script.js:209 | the `errors` list has one entry per failing field |
| Forms.FailingSnoc | demo-app/script.js:220-226 | checking one more field appends it, and its entry, exactly when it fails |
| Forms.FailingAppend | demo-app/script.js:207-289 | the failures of two runs of checks are those of the first run followed by those of the second |
| Forms.FailingAll | demo-app/script.js:207-289 | when every checked field fails, all are reported in order |
| Forms.ErrorFields | demo-app/script.js:192-198 | the fields left marked `error` are exactly the listed fields whose view has `error` |
| Forms.ErrorFieldsAreFailing | demo-app/script.js:207-289 | after marking, the fields marked `error` are exactly the failing ones, in order |
| Forms.ErrorCountMatchesMarks | demo-app/script.js:284-288 | the count a handler reports equals the number of its form's fields left marked `error`, and those are its failing fields |
| Forms.ErrorSummaryReadsBack | demo-app/script.js:287 | the summary starts with "Se encontraron " and `parseInt` of the rest reads the count back, so different counts give different texts |
| Forms.ErrorSummary | demo-app/script.js:287 | the summary starts with "Se encontraron " and ends with a full stop |
| Forms.SuccessMessage | demo-app/script.js:285 | each form's success message never starts like an error summary |
| Forms.ResultMessagesDiffer | demo-app/script.js:285-287 | different error counts give different summaries, and no summary equals any form's success message |
| Forms.EmptyFieldIsMissing | demo-app/script.js:220-281 | on an untouched page every field but the confirmation reports its "required" failure |
| Forms.EmptyVerdicts | demo-app/script.js:207-402 | on an untouched page the verdict map holds every "required" failure and a pass for the confirmation |
| Forms.EmptyFieldsFail | demo-app/script.js:207-402 | on an untouched page any run of fields without the confirmation fails everywhere |
| Forms.EmptyRegistrationFails | demo-app/script.js:258-261 | submitting the untouched registration form fails on six fields in page order, the confirmation passing |
| Forms.RegistrationFailures | demo-app/script.js:207-289 | when every registration field but the passing confirmation fails, the six are reported in order |
| Forms.RegistrationFailingParts | demo-app/script.js:207-289 | the registration failures are those before the confirmation, the confirmation's, then the age's and the checkbox's |
| Forms.EmptyContactFails | demo-app/script.js:291-338 | submitting the untouched contact form fails on all four fields |
| Forms.EmptyCheckoutFails | demo-app/script.js:340-402 | submitting the untouched checkout form fails on all five fields |
| App.ActivateOne | demo-app/script.js:26-27 | once every tab is inactive, activating the chosen tab and panel leaves exactly them active |
| App.ResetOneMore | demo-app/script.js:442-452 | resetting some forms and then one more is resetting all of them |
| App.ResetFormViews | demo-app/script.js:444-451 | going over a form's inputs and error elements resets exactly that form's views |
| App.ResetKeepsFieldsOk | demo-app/script.js:442-452 | a reset keeps every text in place and every field consistently marked |
| App.ResetEverything | demo-app/script.js:440-452 | once all three forms are reset, every text is empty and every field reads as neutral |
| App.FormValidator.constructor | demo-app/script.js:3-11 | the page loads with every field empty and unmarked, one tab active, no result, the counter at 0 and every button showing its label |
| App.FormValidator.ClockTick | demo-app/script.js:173-175 | the clock reading that `new Date()` yields moves to the given month |
| App.FormValidator.SelectTab | demo-app/script.js:17-31 | after a tab click exactly the chosen tab and panel are active and the results are hidden; no field, button or submission changes |
| App.FormValidator.DeactivateTabs | demo-app/script.js:22 | every tab button loses `active` |
| App.FormValidator.DeactivatePanels | demo-app/script.js:23 | every tab panel loses `active` |
| App.FormValidator.Type | demo-app/script.js:212-218 | typing into a field with no listener of its own sets its text and nothing else |
| App.FormValidator.SetTerms | demo-app/script.js:276 | ticking or unticking the checkbox sets its state and nothing else |
| App.FormValidator.TypeConfirmation | demo-app/script.js:47-49 | editing the confirmation marks it at once with its verdict against the password |
| App.FormValidator.TypeMessage | demo-app/script.js:63-74 | the counter shows the message's length, in the band of that length |
| App.FormValidator.TypeCardNumber | demo-app/script.js:89-93 | the card field receives the formatted card number |
| App.FormValidator.TypeExpiry | demo-app/script.js:96-102 | the expiry field receives the formatted date |
| App.FormValidator.TypeCvv | demo-app/script.js:105-107 | the CVV field receives the typed digits only |
| App.FormValidator.ShowError | demo-app/script.js:192-198 | only the given field's view changes, to `showError` of it |
| App.FormValidator.ClearError | demo-app/script.js:200-204 | only the given field's view changes, to `clearError` of it |
| App.FormValidator.ShakeElapsed | demo-app/script.js:197 | only the given field loses `shake` |
| App.FormValidator.ValidatePasswordMatch | demo-app/script.js:132-141 | returns whether the passwords agree, which is the confirmation's verdict, and marks the confirmation with that verdict |
| App.FormValidator.ShowResult | demo-app/script.js:427-437 | the banner shows the message with its kind and is displayed |
| App.FormValidator.SimulateSubmission | demo-app/script.js:405-415 | the button remembers its text, reads "Procesando...", is disabled and loading, and the submission is pending |
| App.FormValidator.CompleteSubmission | demo-app/script.js:417-423 | after the delay the button shows its label again, enabled, and the success message is displayed |
| App.FormValidator.Conclude | demo-app/script.js:284-288 | with no error the submission starts with the form's success message; otherwise the summary of the count is shown |
| App.FormValidator.Record | demo-app/script.js:220-226 | a failing field gets `showError` and its entry pushed; a passing one gets `clearError` |
| App.FormValidator.TestFirstName | demo-app/script.js:220-226 | the first-name tests reach the verdict map's entry |
| App.FormValidator.TestLastName | demo-app/script.js:228-234 | the last-name tests reach the verdict map's entry |
| App.FormValidator.TestEmail | demo-app/script.js:236-245 | the e-mail tests reach the verdict map's entry |
| App.FormValidator.TestPassword | demo-app/script.js:247-256 | the password tests reach the verdict map's entry |
| App.FormValidator.TestConfirmPassword | demo-app/script.js:258-261 | the confirmation test reaches the verdict map's entry |
| App.FormValidator.TestAge | demo-app/script.js:263-273 | the age tests reach the verdict map's entry |
| App.FormValidator.TestTerms | demo-app/script.js:275-281 | the checkbox test reaches the verdict map's entry |
| App.FormValidator.TestContactName | demo-app/script.js:299-304 | the contact-name tests reach the verdict map's entry |
| App.FormValidator.TestContactEmail | demo-app/script.js:306-314 | the contact e-mail tests reach the verdict map's entry |
| App.FormValidator.TestSubject | demo-app/script.js:316-321 | the subject test reaches the verdict map's entry |
| App.FormValidator.TestMessage | demo-app/script.js:323-331 | the message tests reach the verdict map's entry |
| App.FormValidator.TestCardNumber | demo-app/script.js:348-357 | the card-number tests, through the card loop, reach the verdict map's entry |
| App.FormValidator.TestExpiryDate | demo-app/script.js:359-368 | the expiry tests reach the verdict map's entry |
| App.FormValidator.TestCvv | demo-app/script.js:370-379 | the CVV tests reach the verdict map's entry |
| App.FormValidator.TestCardName | demo-app/script.js:381-387 | the card-name test reaches the verdict map's entry |
| App.FormValidator.TestBillingAddress | demo-app/script.js:389-395 | the address test reaches the verdict map's entry |
| App.FormValidator.TestField | demo-app/script.js:207-402 | any field's tests reach its verdict |
| App.FormValidator.CheckField | demo-app/script.js:220-226 | one field's step extends the marking and the `errors` list by that field |
| App.FormValidator.CheckFields | demo-app/script.js:207-282 | checking distinct fields one after the other marks exactly those fields with their verdicts and lists the entries of the failing ones in order |
| App.FormValidator.CheckForm | demo-app/script.js:207-282 | a handler's checks mark exactly its form's fields with their verdicts, leave every other form untouched, and list one entry per failing field in page order |
| App.FormValidator.HandleSubmit | demo-app/script.js:207-289 | a submit marks the form's fields with their verdicts; with no failing field the submission starts, otherwise the number of failing fields is reported |
| App.FormValidator.ClearMarks | demo-app/script.js:444-451 | every field of the form loses `error`, `valid` and its message; every other form is left alone |
| App.FormValidator.ResetForm | demo-app/script.js:443-451 | one form's texts are emptied, its checkbox unticked, its marks and messages removed; the other forms are left as they were |
| App.FormValidator.ResetForms | demo-app/script.js:441-452 | resetting the listed forms one after the other resets exactly those forms |
| App.FormValidator.ResetAllForms | demo-app/script.js:440-456 | every text is empty, the box unticked, every field neutral with its shake kept, the results hidden and the counter at 0 |

## Left out

- The DOM itself is not modelled: element lookup, `addEventListener` wiring, `preventDefault`, `scrollIntoView` and CSS. The counter's colour is a band (grey, orange, red), not a colour string.
- The 500 ms shake timer and the 2000 ms submission delay are not timers. Each is an explicit step the environment takes: `ShakeElapsed`, and `CompleteSubmission` after `SimulateSubmission`. Interleavings of these with other events are allowed by the class but not otherwise studied.
- `new Date()` is the field `today` (year modulo 100 and month). `ClockTick` advances it.
- Lengths count Dafny characters, where JavaScript counts UTF-16 code units. This affects the password, the message and the counter for text outside the Basic Multilingual Plane.
- The markup is not part of the model. The initial active tab and the submit buttons' labels are constructor parameters. `form.reset()` is taken to restore empty texts and an unticked checkbox. The markup's default values are not part of this model.
- A submit while its button is disabled is excluded by `HandleSubmit`'s requires. The browser does not submit a form through a disabled submit button.
- The three handlers are one method, `HandleSubmit`, which runs the same per-field steps over the form's fields in page order.
- `App.FormValidator.HandleSubmit`: the confirmation is marked through `Record`, from its verdict. The source marks it inside `validatePasswordMatch` and then pushes the entry. Both mark the view identically (`ValidatePasswordMatch` is modelled and proved to mark it with the same verdict).
- `resetAllForms` loops once over inputs and once over error elements. Here one loop (`ClearMarks`) resets each field's classes and message together.
- `resetAllForms` leaves the `shake` class and the counter's colour as they were, as the source does. The counter's text becomes 0.
- `ParseIntChar`: `parseInt(cleaned[i])` in the card loop is modelled on one character. It is proved equal to the general `ParseInt` on a one-character string.
- Integers are unbounded. The card loop's sum stays far below 2^53 for at most 19 digits, so no rounding occurs.
- The Playwright tests, the report and test-runner scripts, and the Playwright configuration are not part of this model.
