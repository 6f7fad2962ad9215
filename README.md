# Enrollment webhook and email reservation: a verified model

This project models the two pieces of decision logic in the repository's AWS
Lambda functions and proves what they promise.

- **Email reservation** (`routes/validateAndStoreEmail.mjs`). The handler
  takes an address from a request, either from a JSON-string body or from a
  bare `email` property. It then runs the address through `validateEmail`, a
  case-insensitive regular expression, and inserts `{ email }` into a
  DynamoDB table only if the key is absent. It answers `'200'`, `'409'` (the
  condition failed) or `'400'` (any other error). Every answer has a JSON
  `{ message }` body.
  - `EmailFormat` writes the regular expression as a grammar (`Pattern`) and
    as an executable checker (`ValidateEmail`). It proves that the two agree
    and that validation ignores case.
  - `JsonText` models `JSON.stringify({ message })`, which quotes the message
    as QuoteJSONString does (section 25.5.2.3 of ECMA-262). It proves that
    the body decodes back to the message.
  - `EmailStore` holds the table as a class over a `map`, and the handler as
    a method. The method is proved equal to the spec function
    `StoreOutcome`, about which the lemmas state the reservation rules.
- **Checkout webhook** (`index.js`). For a verified
  `checkout.session.completed` Stripe event, the handler folds the session's
  custom fields into an object and builds `userData` from it. It then stores
  `userData` with an unconditional put and sends two emails: to the user,
  then to the company. A failure inside `saveUserData` sends one failure
  email and throws "Error saving user data.", or that email's own send
  error when the failure email cannot be sent. Any error in the handler sends one error-report email
  and answers `err.statusCode || 400`, unless that report send itself
  throws: the handler then rejects with the send error.
  - `CheckoutSession` writes the fold as a loop method, proved against the
    recursive spec `Collect`, and writes the projection as functions. Its
    lemmas say that the last entry for a key wins.
  - `Webhook` holds the table and the mailer as classes. The mailer replays
    an oracle `script` of send results. `SaveUserData` and `HandleWebhook`
    are proved equal to the spec functions `SaveSpec` and `WebhookSpec`.
    The lemmas state the order of writes and emails and the status returned.

Stripe, DynamoDB and SendGrid enter only as inputs:
- signature verification is a `Verification` value;
- the put is an oracle flag `accepted` (and, in the reservation handler, a
  `fault`);
- each send's result comes from the mailer's `script`;
- the date string of the error report is a parameter.

What the webhook code does not do, and the model therefore does not either:
- It reads nothing before writing: there is no create-if-absent, no
  `courses` list with a course appended to it, and no retry on a lost race.
  It performs one unconditional put of `userData` (index.js:95-101).
- It does not treat a notification failure as a mere log line. A failed
  user email skips the company email, sends the failure email and ends the
  invocation in the error path (index.js:100-137).

## Model

| member | source | states |
|---|---|---|
| EmailFormat.ValidateEmailMatchesPattern | routes/validateAndStoreEmail.mjs:54-57 | the check accepts an email exactly when its lower-cased text matches the grammar: dot-separated atoms or a quoted local part, '@', one or more labels each ended by '.', and a final label of at least two characters |
| EmailFormat.AddressMatchesPattern | routes/validateAndStoreEmail.mjs:55 | the executable checker (split at the last '@', then at the last '.') accepts exactly the strings the regular expression matches |
| EmailFormat.DotAtomsIff | routes/validateAndStoreEmail.mjs:55 | the positional check of the unquoted local part agrees with the grammar's atom ('.' atom)* |
| EmailFormat.ValidateIsCaseFree | routes/validateAndStoreEmail.mjs:55-56 | lower-casing the text first gives the same answer as checking the text itself |
| EmailFormat.ValidateIgnoresCase | routes/validateAndStoreEmail.mjs:55-56 | lower-casing does not change acceptance: the validator accepts an email iff the email itself matches the grammar |
| EmailFormat.UnquotedAddressShape | routes/validateAndStoreEmail.mjs:55 | an accepted address that does not start with '"' has exactly one '@', and its local part is non-empty, neither starts nor ends with '.', and contains no ".." |
| EmailFormat.AcceptedDomainShape | routes/validateAndStoreEmail.mjs:55 | every accepted address has a '.' after its last '@', and at least two characters follow the last '.' |
| EmailFormat.ValidatedAddressShape | routes/validateAndStoreEmail.mjs:54-57 | the same domain and single-'@' facts for every email the validator accepts, whatever its case |
| EmailFormat.UndefinedIsRejected | routes/validateAndStoreEmail.mjs:56 | String(undefined), the text "undefined", is rejected |
| EmailFormat.QuotedLocalMayHoldAt | routes/validateAndStoreEmail.mjs:55 | a quoted local part may itself hold '@' ("\"a@b\"@mail.co" is accepted) |
| EmailFormat.MixedCaseIsAccepted | routes/validateAndStoreEmail.mjs:55-56 | an address in mixed case ("Ana.Perez@Mail.COM") is accepted |
| JsonText.MessageRoundTrip | routes/validateAndStoreEmail.mjs:43 | decoding the JSON text of { message } gives back the message, for every message, control characters included |
| JsonText.StringifyInjective | routes/validateAndStoreEmail.mjs:43 | distinct messages give distinct bodies |
| EmailStore.EmailTable.PutIfAbsent | routes/validateAndStoreEmail.mjs:32-36 | a put with attribute_not_exists(email): adds the item when the key is absent, fails with ConditionalCheckFailedException and no change when present, and leaves the table alone on any other failure |
| EmailStore.ReadEmail | routes/validateAndStoreEmail.mjs:18-26 | an unparsable string body throws its SyntaxError and a `null` body the TypeError of reading .email; a parsed body gives its .email (possibly absent); with no string body a truthy event.email is taken, otherwise "Invalid request" is thrown; and the text it yields is what `RequestedEmail` uses |
| EmailStore.ValidateAndPut | routes/validateAndStoreEmail.mjs:28-36 | an address the validator rejects throws "Invalid email format" before any put; a valid one goes to the conditional put: another failure is rethrown, an existing key throws ConditionalCheckFailedException, and an absent key is added holding { email }; the table changes only in that last case |
| EmailStore.Handle | routes/validateAndStoreEmail.mjs:7-51 | the response and the new table equal `StoreOutcome` of the old table: its status, its JSON message body with the JSON header, and its table |
| EmailStore.ResponseShape | routes/validateAndStoreEmail.mjs:11-50 | every response carries Content-Type application/json, its body decodes to the message, and its status is '200', '400' or '409' |
| EmailStore.ExtractionCases | routes/validateAndStoreEmail.mjs:18-26 | a parsed string body gives its .email; with no string body, a truthy event.email is used; otherwise (including the empty string) "Invalid request" is thrown |
| EmailStore.MissingAddressRejected | routes/validateAndStoreEmail.mjs:18-41 | a request with neither a string body nor a truthy email answers '400' and "Invalid request" and leaves the table unchanged |
| EmailStore.BodyWithoutEmailRejected | routes/validateAndStoreEmail.mjs:18-30 | a body without an email property validates "undefined" and answers '400' "Invalid email format" with the table unchanged |
| EmailStore.InvalidAddressRejected | routes/validateAndStoreEmail.mjs:28-41 | an address that fails validation answers '400' "Invalid email format" and leaves the table unchanged |
| EmailStore.NewAddressStored | routes/validateAndStoreEmail.mjs:32-38 | a valid address that is not a key answers '200' "Email stored successfully"; the table gains exactly that key, holding { email }, and every other item is unchanged |
| EmailStore.ExistingAddressConflicts | routes/validateAndStoreEmail.mjs:32-41 | a valid address that is already a key answers '409' with the condition's message and leaves the table unchanged |
| EmailStore.NeverOverwrites | routes/validateAndStoreEmail.mjs:32-36 | whatever happens, every stored item stays unchanged, and the only possible change is the requested address added under itself |
| EmailStore.SuccessIffStored | routes/validateAndStoreEmail.mjs:32-41 | the status is '200' exactly when the table changed |
| EmailStore.ConflictIffPresent | routes/validateAndStoreEmail.mjs:39-41 | when no other failure is named ConditionalCheckFailedException, '409' means exactly that the address was valid and already a key, and every other error gives '400' |
| EmailStore.StoreFaultRejected | routes/validateAndStoreEmail.mjs:32-41 | a store failure other than the condition, on a valid address, answers with that failure's message and leaves the table unchanged; the status is '400' unless the failure carries the condition's name |
| EmailStore.StoredKeyKeepsCase | routes/validateAndStoreEmail.mjs:32-56 | a mixed-case address is stored under its original text, beside an existing lower-case spelling: validation ignores case, storage does not |
| CheckoutSession.Reduce | index.js:40-45 | the in-place reduce over custom_fields gives exactly `Collect`: the accumulated object, or the first TypeError thrown |
| CheckoutSession.CollectErrorStays | index.js:41-44 | once a field's value cannot be read, the later fields change nothing: the reduce has thrown |
| CheckoutSession.CollectOkIff | index.js:41-44 | the fold succeeds exactly when every field has a non-null entry under its own type name |
| CheckoutSession.CollectKeys | index.js:41-44 | the object's keys are exactly the fields' keys |
| CheckoutSession.CollectLastValues | index.js:41-44 | each key holds `field[field.type].value` of the last field with that key |
| CheckoutSession.LookupIsLastValue | index.js:50-52 | reading a property of the object gives the last field's value for that key, or undefined when no field has it |
| CheckoutSession.UserDataSources | index.js:48-53 | userData.email is customer_details.email; telefono, ciudad and nombreDelAlumno are the last values of the keys "telfono", "ciudad" and "nombredelalumno" |
| CheckoutSession.NoCustomFields | index.js:40-53 | an absent custom_fields gives the empty object, and the three custom properties are undefined |
| CheckoutSession.UnreadableFieldThrows | index.js:42 | a field whose type-named entry is missing or null makes building userData throw |
| CheckoutSession.CollectErrorsHaveNoStatus | index.js:41-44 | every error the fold throws is a TypeError from reading a property, with no statusCode |
| CheckoutSession.SessionErrorsHaveNoStatus | index.js:40-53 | every error thrown while building userData has no statusCode |
| CheckoutSession.RepeatedKeyExample | index.js:41-44 | of two fields keyed "ciudad", the later one's value is kept |
| Webhook.StatusOr400 | index.js:87 | the status is the error's statusCode when that is present and non-zero, and 400 otherwise (absent or 0); it is never 0 |
| Webhook.UserTable.Put | index.js:95-101 | an unconditional put: when accepted and the key is a string, the email maps to exactly the item; otherwise nothing is written |
| Webhook.Mailer.Send | index.js:151 | every send is recorded in order, and its result is the script entry at its position |
| Webhook.SendEmail | index.js:141-157 | the message goes from the company address with the given recipient, template and data, and a send error is rethrown |
| Webhook.SaveUserData | index.js:94-138 | the new table, the emails attempted and the error thrown are exactly `SaveSpec` of the old table and the send script |
| Webhook.ProcessEvent | index.js:25-61 | the new table, the emails attempted and the error escaping the try block are exactly `TrySpec`: the verification error, nothing for other event types, the fold or projection error, or what saveUserData throws |
| Webhook.HandleWebhook | index.js:22-91 | the new table, the emails attempted and the completion are exactly `WebhookSpec` of the verification result, the old table and the send script |
| Webhook.PutOverwrites | index.js:95-101 | an accepted put maps userData.email to exactly userData and leaves every other key unchanged, and later email failures do not undo it; a rejected put writes nothing |
| Webhook.SaveSucceedsIff | index.js:100-122 | saveUserData succeeds exactly when the put and both emails succeed, and it then sent the user template to userData.email and then the company template to companyEmail |
| Webhook.SaveFailureReportsOnce | index.js:123-137 | any failure in the try block ends with exactly one failure email to companyEmail, attempted last; it then throws that email's own send error if it fails, and "Error saving user data." otherwise |
| Webhook.PutFailureSkipsUser | index.js:100-105 | when the put fails, the only email is the failure report: the user is never emailed and the table is unchanged |
| Webhook.OtherEventsAreQuiet | index.js:36-61 | a verified event of another type returns 200 "Event received correctly." with no write and no email |
| Webhook.CheckoutStoredAndAcknowledged | index.js:36-61 | a completed checkout returns 200 exactly when the put and both emails succeed, and then the table holds userData under its email and the two emails went out in order |
| Webhook.RejectedEventIsReported | index.js:25-90 | a failed signature check writes nothing, sends one error report, and answers its statusCode (or 400) with "Webhook Error: " + message, unless that send throws |
| Webhook.FailedSaveAnswers400 | index.js:58-137 | every failed save (a refused put, a failed user email or a failed company email) whose failure email and error report are delivered answers 400 "Webhook Error: Error saving user data.", with the error report appended after the save's emails |
| Webhook.RefusedPutAnswers400 | index.js:58-137 | a refused put whose failure and error emails are delivered sends exactly those two emails, writes nothing, and answers 400 "Webhook Error: Error saving user data." |
| Webhook.TypeErrorAnswers400 | index.js:40-87 | a completed checkout whose userData cannot be built writes nothing, sends only the error report and, once that is delivered, answers 400 with "Webhook Error: " and the TypeError's message |
| Webhook.ErrorStatus | index.js:58-90 | nothing thrown gives 200 and the acknowledgement; a thrown error gives its statusCode or 400 with "Webhook Error: " and its message, unless the report send throws, whose error then rejects the handler |
| Webhook.ErrorBodyIsNotReceived | index.js:61-88 | an error body never equals the acknowledgement body |
| Webhook.ReportErrorOnce | index.js:62-90 | the catch block adds one error report to the company after mail that held none, and its completion carries that report's message or the report's own send error |
| Webhook.SaveEffects | index.js:94-138 | saveUserData attempts at most three sends, all from companyEmail and none of them an error report; it changes the table or emails the user only when the put was accepted for a string email, and the table then holds userData under that email |
| Webhook.TryBlockEffects | index.js:25-61 | the try block attempts at most three sends, all from companyEmail and none an error report; a table change or a user email happens only for a completed checkout whose userData was built and whose put was accepted |
| Webhook.EveryErrorIsReported | index.js:22-137 | every invocation either returns 200 with no error report, or ends with exactly one error report to the company, whose message the body carries unless that send throws |
| Webhook.AtMostFourSends | index.js:77-134 | an invocation attempts at most four sends, all from companyEmail |
| Webhook.OnlyCheckoutWrites | index.js:36-105 | the table changes, and the user is emailed, only for a completed checkout whose put was accepted; the table then holds userData under its email |

## Left out

- Stripe signature verification (index.js:27-31) is cryptography inside the Stripe SDK. It is an input: a verified event, or the error with its optional statusCode.
- DynamoDB, SendGrid and their configuration (index.js:2-20, routes/validateAndStoreEmail.mjs:1-5) are a map and oracle inputs. The table name, the region and the API keys play no part.
- A put whose request commits and then times out is not modelled. A failing put leaves the table as it was.
- Webhook.UserTable.Put: `accepted` stands for everything the service and the SDK's marshalling decide. That includes refusing an item with undefined attributes, such as a missing "telfono" field. The model does not derive that refusal from the item.
- The locale date string of the error report (index.js:65-74) is a parameter: it depends on the host's clock and locale.
- `console.log` and `console.error` calls are left out. They have no effect on the outcome.
- `JSON.parse` inside the reservation handler is abstract. A string body is either unparsable (a SyntaxError with its message), the literal `null` (reading `.email` throws a TypeError), or an object whose `email` is a string or absent. Non-string JSON values for `email` are not modelled.
- Text is modelled as a sequence of Unicode code points, not of UTF-16 code units. The regular expression at routes/validateAndStoreEmail.mjs:55 has no `u` flag, so JavaScript counts code units. A final label that is one astral-plane character (such as "a@b.\u{1F600}", two code units) matches `{2,}` in the source and is stored, but `EmailFormat.ValidateEmail` rejects it and `EmailStore.Handle` answers '400'. Lone surrogates, which the source accepts as atom characters, cannot be written in the model at all. For the same reason `JsonText` never meets the lone-surrogate escape of QuoteJSONString. `EmailFormat.AddressMatchesPattern` and `EmailFormat.ValidateEmailMatchesPattern` are exact only over code-point text.
- `toLowerCase` is modelled on ASCII letters only. JS `\s` is a fixed set of whitespace code points from ECMA-262. Letters whose lower case is not one character (like 'İ') are not modelled.
- CheckoutSession.ToUserData: a `customer_details` that is null throws "Cannot read properties of null (reading 'email')". An undefined or non-object `customer_details` is not modelled separately.
- Custom fields whose entry values are numbers or other non-string JSON values, and keys such as `__proto__` that the object would treat specially, are not modelled.
- routes/sendEmailContactForm.mjs is not part of this model. It is a single pass-through to SES with no decision logic.
- Concurrent invocations are not modelled: each method runs alone against the two services. There is no course append or create-if-absent retry to model, because the code has neither.
