# Portfolio contact form — a verified model

This project models the decision logic of a personal portfolio site:

- the contact endpoint `POST /api/contact` (`src/app/api/contact/route.ts`):
  - the in-memory rolling-window rate limiter, `isRateLimited` over `rateLimitStore`;
  - the field validator `validateInput` and its address pattern `^[^\s@]+@[^\s@]+\.[^\s@]+$`;
  - the sanitiser `sanitizeInput` and the client-key resolver `getClientIp`;
  - the request pipeline, with its early return and HTTP status at each stage;
- the contact form of the home page (`src/app/page.tsx`): the browser-side validator `validateForm`, the status line composed by `handleSubmit`, the form state kept by `handleInputChange` and `handleSubmit`, and the profile links of `handleContactClick1`;
- the site header (`src/app/components/Header.tsx`): the hide/show decision on scroll with the remembered `lastScrollY`, and the `isMenuOpen` flag.

Files, one module each:

- `wrappers.dfy` (`Wrappers`): `Option`, for absent headers, environment variables and JSON fields.
- `text.dfy` (`Text`): the JavaScript string operations the core uses.
  - `trim` and the `\s` class share one whitespace set, the ECMAScript WhiteSpace and LineTerminator characters.
  - `trim` is specified by a reference predicate (`IsTrimmingOf`) that determines its result uniquely.
  - Also here: `replace(/[<>]/g, '')`, `split(',')[0]` and `join`.
- `email_pattern.dfy` (`EmailPattern`): the address pattern. `MatchesEmailPattern` is the regular expression's meaning, one existential split per match. `TestEmail` is an executable test proved equal to it.
- `rate_limit.dfy` (`RateLimit`): one limiter call as a function over the table, with its properties and a replay of request sequences.
- `contact_route.dfy` (`ContactRoute`): validation, sanitising, the client key, the pipeline as a function (`PostSpec`), and the class `ContactRoute`.
  - The class holds `rateLimitStore` and updates it in place.
  - Its `IsRateLimited` and `Post` methods are proved against `RateLimitCheck` and `PostSpec`.
- `contact_form.dfy` (`HomePage`): the form, its status line, the class `ContactForm` (`formData`, `isSubmitting`, `submitStatus`), and lemmas that follow one submission from the form through the endpoint and back.
- `header.dfy` (`Header`): the scroll decision, a replay of scroll events, and the class `Header` (`lastScrollY`, the header's offset, `isMenuOpen`).

The mail service is an oracle, `ContactRoute.Transport`, which says whether `verify` and each of the two `sendMail` calls succeed. The HTTP round trip seen by the form is an oracle too, `HomePage.SubmitOutcome`. The clock is the `now` parameter. The environment variables, headers and parsed body are parameters, and the scroll position is the argument of the scroll event.

The model follows the code in these details:

- The limiter keeps a timestamp only if it is strictly greater than `now - 3600000`, so a timestamp exactly one hour old is dropped.
- On a refused request the pruned list is still written back into the stored entry. The filter result is assigned to the very object the table holds.
- The presence check answers with one fixed detail text, whichever fields are missing.
- A JSON `null` body makes the destructuring throw. A field that is truthy but not a string (a number, an array, an object) makes `validateInput` call a missing `trim`. The catch-all turns both into the generic 500, not a 400.
- The form's texts say a name must be "less than 100 characters" and a message "less than 1000 characters". The checks still accept exactly 100 and exactly 1000 (`|Trim(name)| > 100` fails, so 100 passes). The model states the checks.

## Model

| member | source | states |
|---|---|---|
| Text.Trim | src/app/api/contact/route.ts:52 | the result is the trimming of the input: a slice with no outer whitespace, everything around it whitespace (`trim`) |
| Text.TrimmingIsUnique | src/app/api/contact/route.ts:52 | at most one string is the trimming of a given string, so `IsTrimmingOf` pins `trim` down |
| Text.TrimIsIdempotent | src/app/api/contact/route.ts:72 | trimming twice equals trimming once |
| Text.TrimEmptyIffAllWhitespace | src/app/api/contact/route.ts:52 | `trim()` is empty (falsy) exactly when the string is whitespace only |
| Text.TrimTakesFromInput | src/app/api/contact/route.ts:72 | trimming never lengthens and never introduces a character |
| Text.StripAngleBrackets | src/app/api/contact/route.ts:71 | no `<` or `>` is left, every other character of the input stays, and bracket-free text is unchanged |
| Text.StripAngleBracketsDistributes | src/app/api/contact/route.ts:71 | removing brackets from a concatenation is removing them from each part, so the kept characters keep their order and multiplicity |
| Text.StripAngleBracketsOfChar | src/app/api/contact/route.ts:71 | a single character is dropped exactly when it is `<` or `>` |
| Text.StripTagPair | src/app/api/contact/route.ts:71 | `<tag>text</tag>` around bracket-free text becomes `tag`, `text`, `/`, `tag`: only the brackets go |
| Text.FirstSegment | src/app/api/contact/route.ts:91 | `split(sep)[0]` is the longest prefix without `sep`: a prefix, no `sep` in it, followed by `sep` when shorter than the input |
| Text.Join | src/app/page.tsx:110 | definition of `Array.prototype.join` (no contract): the parts with the separator between consecutive ones; used for the status lines at src/app/page.tsx:110, 141 and 156 |
| EmailPattern.IndexOf | src/app/api/contact/route.ts:56-57 | the first index of the character, or the length when it is absent |
| EmailPattern.TestEmail | src/app/api/contact/route.ts:56-57 | true exactly when the string matches `^[^\s@]+@[^\s@]+\.[^\s@]+$` (no whitespace, one `@` after a non-empty local part, a `.` inside the domain) |
| RateLimit.KeepAfter | src/app/api/contact/route.ts:36 | the filter keeps exactly the timestamps strictly after the window start, and never grows the list |
| RateLimit.KeepAfterCountsEach | src/app/api/contact/route.ts:36 | each timestamp strictly after the window start is kept as many times as it occurs, every other one is dropped, so repeated timestamps count one by one toward the limit |
| RateLimit.KeepAfterDistributes | src/app/api/contact/route.ts:36 | filtering a concatenation is filtering each part, so the kept timestamps keep their order |
| RateLimit.KeepAfterKeepsRecent | src/app/api/contact/route.ts:36 | a list entirely inside the window is kept whole |
| RateLimit.KeepAfterDropsStale | src/app/api/contact/route.ts:36 | a list with a timestamp at or before the window start gets shorter |
| RateLimit.History | src/app/api/contact/route.ts:34 | definition (no contract): the stored list of the key, or the empty list of `{ timestamps: [] }` when the key is absent |
| RateLimit.RateLimitCheck | src/app/api/contact/route.ts:30-46 | one call of `isRateLimited`: "limited" exactly when five or more timestamps survive pruning (the test at line 38), and a stored key stays stored; the rest of its effect is stated by the lemmas below |
| RateLimit.StoredTimestampsInsideWindow | src/app/api/contact/route.ts:31-36 | after a call every timestamp stored for the key is strictly after `now - 3600000` |
| RateLimit.RefusalRecordsNothing | src/app/api/contact/route.ts:34-40 | a refused key was stored, its entry becomes its pruned list (never longer than before), and `now` is not added |
| RateLimit.AcceptanceAppendsNow | src/app/api/contact/route.ts:42-45 | an accepted call stores the pruned history followed by `now`, at most five timestamps |
| RateLimit.AbsentKeyAccepted | src/app/api/contact/route.ts:34 | a key with no entry is accepted and recorded as `[now]` |
| RateLimit.OtherKeysUntouched | src/app/api/contact/route.ts:43 | no other key is added, removed or changed |
| RateLimit.CheckPreservesBound | src/app/api/contact/route.ts:38-45 | the table invariant "at most five timestamps per key" is preserved |
| RateLimit.CheckRecentHistory | src/app/api/contact/route.ts:36-45 | with every recorded timestamp inside the window, the answer depends on their number alone and the new history is the old one, plus `now` when accepted |
| RateLimit.FirstRequestsAccepted | src/app/api/contact/route.ts:30-46 | a new client's first five requests within one hour are all accepted and become its history |
| RateLimit.SixthRequestRefused | src/app/api/contact/route.ts:30-46 | a sixth request within the same hour is refused and the history stays the five accepted times |
| RateLimit.RollingWindow | src/app/api/contact/route.ts:30-46 | a seventh request an hour or more after the first is accepted again |
| RateLimit.ReplayExtend | src/app/api/contact/route.ts:30-46 | definitional helper: replaying one more request is one more `RateLimitCheck` on the replayed table; used by the request-sequence lemmas above |
| ContactRoute.FieldErrors | src/app/api/contact/route.ts:49-66 | one error per failing field, in field order, as many as there are failing fields |
| ContactRoute.ValidateInput | src/app/api/contact/route.ts:49-66 | the name error iff the trimmed name length is outside [2,100]; the email error iff the trimmed email does not match the pattern; the message error iff the trimmed length is outside [10,1000]; in field order, one per failing field |
| ContactRoute.ValidationIsExhaustive | src/app/api/contact/route.ts:49-66 | input failing every field gets all three errors, in order: validation does not stop at the first failure |
| ContactRoute.ErrorTexts | src/app/api/contact/route.ts:216-220 | the response details are the error texts, one per error, in order |
| ContactRoute.SanitizeInput | src/app/api/contact/route.ts:69-73 | the result has no `<`, no `>` and no outer whitespace, is the trimming of the bracket-free input, and only holds characters of the input |
| ContactRoute.SanitizeIsIdempotent | src/app/api/contact/route.ts:69-73 | sanitising twice equals sanitising once |
| ContactRoute.SanitizeKeepsCleanText | src/app/api/contact/route.ts:69-73 | text without brackets or outer whitespace passes unchanged |
| ContactRoute.SanitizeExample | src/app/api/contact/route.ts:69-73 | `<b>Bob</b>` sanitises to `bBob/b` |
| ContactRoute.StripMarkupExample | src/app/api/contact/route.ts:71 | bracket removal turns `<b>Bob</b>` into `bBob/b` |
| ContactRoute.GetClientIp | src/app/api/contact/route.ts:88-95 | a non-empty `x-forwarded-for` gives its text before the first `,`, untrimmed; else a non-empty `x-real-ip`; else `"unknown"` |
| ContactRoute.NotificationMail | src/app/api/contact/route.ts:232-247 | definition (no contract): the owner notification, from the configured account to the owner's address, subject "New Portfolio Contact: " and the sanitised name, showing all three sanitised fields |
| ContactRoute.AutoReplyMail | src/app/api/contact/route.ts:249-272 | definition (no contract): the auto-reply, from the configured account to the sanitised address, with the fixed subject, greeting the sanitised name |
| ContactRoute.Deliver | src/app/api/contact/route.ts:229-287 | definition (no contract): a failed `verify` is the generic 500 with nothing sent; otherwise both messages are handed over and the answer is 200 only when both sends succeed; its properties are `BodySucceedsIff`, `BodySendsOnlyWhenAcceptable` and `BodyStages` |
| ContactRoute.HandleBody | src/app/api/contact/route.ts:192-296 | definition (no contract) of the stages after the rate limit: parse, presence, the thrown `trim` on a non-string field, validation, sanitising and delivery; its properties are `BodyStatuses`, `BodySucceedsIff`, `BodySendsOnlyWhenAcceptable` and `BodyStages` |
| ContactRoute.PostSpec | src/app/api/contact/route.ts:172-297 | definition (no contract) of `POST`: configuration, client key, rate limit, then `HandleBody`; its properties are the lemmas below and `ContactRoute.Post` is proved equal to it |
| ContactRoute.ConfigCheckedFirst | src/app/api/contact/route.ts:174-180 | missing credentials answer 500 "Server configuration error", send nothing and leave the table alone |
| ContactRoute.RateLimitBeforeBody | src/app/api/contact/route.ts:183-200 | with credentials present, the new table is the limiter's whatever the body; 429 exactly when limited, with nothing sent |
| ContactRoute.BodyStatuses | src/app/api/contact/route.ts:192-296 | after the rate limit the answer is 200, 400 or 500, and 200 exactly when it reports success |
| ContactRoute.BodySucceedsIff | src/app/api/contact/route.ts:202-287 | after the rate limit, 200 exactly for three non-empty valid strings with `verify` and both sends succeeding, and then both messages were handed over |
| ContactRoute.BodySendsOnlyWhenAcceptable | src/app/api/contact/route.ts:225-277 | messages are handed over only for a valid body after `verify`: the notification and the auto-reply built from the sanitised fields |
| ContactRoute.MailOnlyAfterAllChecks | src/app/api/contact/route.ts:172-277 | nothing is sent unless configuration, rate limit, presence and validation all passed; then exactly the two messages with the sanitised fields, one to the owner and one to the sanitised address |
| ContactRoute.SuccessIffEveryStagePasses | src/app/api/contact/route.ts:172-297 | 200 exactly when every stage passes and the mail service accepts both messages; then the success message, with two messages sent |
| ContactRoute.BodyStages | src/app/api/contact/route.ts:192-296 | non-JSON gives 400 "Invalid JSON"; a falsy field gives the presence error; failed validation gives 400 with every error text; any mail failure gives the same generic 500 |
| ContactRoute.StatusesAreFixed | src/app/api/contact/route.ts:172-297 | every answer is 200, 400, 429 or 500, and only 200 reports success |
| ContactRoute.ContactRoute.constructor | src/app/api/contact/route.ts:19 | the table starts empty |
| ContactRoute.ContactRoute.IsRateLimited | src/app/api/contact/route.ts:30-46 | updates `rateLimitStore` in place exactly as `RateLimitCheck` prescribes, keeping the five-per-key bound |
| ContactRoute.ContactRoute.Post | src/app/api/contact/route.ts:172-297 | the stage-by-stage handler gives the response, the messages sent and the new table that `PostSpec` gives |
| HomePage.WithField | src/app/page.tsx:63-67 | the named field takes the value, and the other two keep theirs |
| HomePage.PushIf | src/app/page.tsx:75-100 | pushing a failed check in front of later checks keeps the errors in check order and adds exactly that error |
| HomePage.FormErrors | src/app/page.tsx:75-100 | one error per failed check, in check order, as many as there are failed checks |
| HomePage.ValidateForm | src/app/page.tsx:75-100 | "too short" iff trimmed name length < 2, "too long" iff > 100 (100 passes); the email error iff the trimmed email does not match the pattern; the same for the message with 10 and 1000; never both for one field; in check order; at most three |
| HomePage.FormErrorTexts | src/app/page.tsx:110 | the listed texts are the error texts, one per error, in order |
| HomePage.FixErrorsStatus | src/app/page.tsx:108-111 | definition (no contract): "Please fix the following errors: " followed by the error texts joined with ", "; `ContactForm.HandleSubmit` shows it for an invalid form |
| HomePage.FailureMessage | src/app/page.tsx:137-144 | definition (no contract): the `error` or the default text, plus " Details: " and the joined details when there are some; its property is `FailureShowsErrorAndDetails` |
| HomePage.StatusAfter | src/app/page.tsx:118-169 | definition (no contract) of the status line after the request: confirmation, failure message, network error or unexpected error by outcome; its properties are `DeliveredShowsConfirmation`, `FailureShowsErrorAndDetails` and `ServerErrorsAreShown` |
| HomePage.DeliveredShowsConfirmation | src/app/page.tsx:127-130 | a 2xx answer whose body says `success` shows the confirmation line |
| HomePage.FailureShowsErrorAndDetails | src/app/page.tsx:136-159 | a failure answer shows its `error` or the default text, plus " Details: " and the joined details only when there are some |
| HomePage.ContactForm.constructor | src/app/page.tsx:51-58 | the form starts empty, not submitting, with no status |
| HomePage.ContactForm.HandleInputChange | src/app/page.tsx:60-73 | only the named field changes, the status line is cleared, and `isSubmitting` is kept |
| HomePage.ContactForm.HandleSubmit | src/app/page.tsx:102-173 | an invalid form sends nothing and shows "Please fix the following errors: " and the joined texts; a valid form is sent, the status shows the outcome, only a delivered submission empties the form, and `isSubmitting` ends false |
| HomePage.ContactUrl | src/app/page.tsx:180-197 | the address is the site's profile prefix followed by the handle |
| HomePage.ContactUrlIsInjective | src/app/page.tsx:180-197 | different sites or handles never open the same address |
| HomePage.DistinctSitesDistinctUrls | src/app/page.tsx:184-193 | the three profile prefixes can never produce the same address |
| HomePage.ClientAgreesWithServer | src/app/page.tsx:75-100 | the form flags a field exactly when the endpoint's validator does, so both accept the same forms |
| HomePage.ClientAndServerCountAlike | src/app/page.tsx:75-100 | the form and the endpoint report the same number of errors for any input |
| HomePage.ValidFormIsAcceptable | src/app/page.tsx:107-123 | a form the browser lets through passes the endpoint's presence check and validation |
| HomePage.ValidFormIsDelivered | src/app/page.tsx:102-135 | a valid form, with credentials set, an admitted client and a mail service that accepts both messages, is delivered and shows the confirmation |
| HomePage.SuccessAnswerIsDelivered | src/app/page.tsx:120-127 | the endpoint's 200 answer with `success: true` resolves the request and takes the success branch of `handleSubmit` |
| HomePage.ServerErrorsAreShown | src/app/page.tsx:146-159 | every refusal of the endpoint reaches the user with its own error text, with its details when it has them |
| HomePage.ValidationDetailsAreShown | src/app/page.tsx:150-159 | a body failing the endpoint's validation shows "Please check your input fields", " Details: " and every validation message |
| Header.ScrollDecision | src/app/components/Header.tsx:25-40 | hide iff the page moved down past 100; show iff it moved up or is at most 100; otherwise keep, which is the same position past 100 |
| Header.Scroll | src/app/components/Header.tsx:22-43 | definition (no contract) of one scroll event: the decision applied to the offset, then the position remembered; its properties are the lemmas below and `Header.Header.HandleScroll` is proved equal to it |
| Header.RemembersLastPosition | src/app/components/Header.tsx:42 | after any run of scroll events `lastScrollY` is the last position |
| Header.StaysHiddenOrShown | src/app/components/Header.tsx:25-40 | the header's offset is only ever -100 or 0 |
| Header.LastMoveDecides | src/app/components/Header.tsx:25-42 | the last event decides: down past 100 hides, up or into the top 100 shows, whatever came before |
| Header.HoveringKeepsHeader | src/app/components/Header.tsx:25-40 | repeated events at the position already seen, past 100, change nothing |
| Header.Header.constructor | src/app/components/Header.tsx:18-19 | the header starts shown at position 0 with the menu closed |
| Header.Header.HandleScroll | src/app/components/Header.tsx:22-43 | one event moves the state as `Scroll` prescribes and leaves the menu flag alone |
| Header.Header.ToggleMenu | src/app/components/Header.tsx:124 | the hamburger button negates `isMenuOpen` |
| Header.Header.ScrollToSection | src/app/components/Header.tsx:56-62 | the chosen section is brought into view and the menu ends closed |
| Header.Header.MobileResumeClick | src/app/components/Header.tsx:166-175 | the mobile Resume button downloads the resume and closes the menu |
| Header.Header.DesktopResumeClick | src/app/components/Header.tsx:108-116 | the desktop Resume button downloads the resume and changes no state |

## Left out

- Lengths are counted in characters (Unicode scalar values), not in the UTF-16 code units JavaScript's `length` counts. Text outside the Basic Multilingual Plane is measured differently.
- nodemailer (`createTransporter`, `verify`, `sendMail`) is foreign I/O. It is the `Transport` oracle, and a sent message is the value handed to it.
- The two sends run concurrently under `Promise.all`. The model hands both messages over and needs both to succeed. It does not model their interleaving.
- The read-modify-write race on `rateLimitStore` between concurrent requests is not modelled. Each request is atomic and sequential.
- The entries of `rateLimitStore` are objects whose list is reassigned in place. The model keeps the list itself as the map value. The write-back on the refused path models the effect of that aliasing.
- `Date.now()` is the `now` parameter. `toLocaleString()` and the HTML and text mail templates are fixed text and are not modelled; `Mail.shown` records which sanitised values they interpolate.
- `request.json()` is the parsed `Body`. `Response.json`, the `process.env` reads and the logging to the console are not modelled.
- axios is the `SubmitOutcome` oracle. A `details` value that is not an array and an `error` that is truthy but not a string are not modelled.
- The `default` branch of `handleContactClick1` is left out, because its argument type admits only the three sites. `window.open` is represented by the returned address.
- `scrollIntoView` is represented by the section returned. The resume download is represented by the returned `Download`.
- GSAP animations, the scroll-event listener registration and JSX markup are not modelled. The header's `y` offset is the `offsetY` field.
- Scroll positions are integers. `window.scrollY` can be fractional, which the decision does not depend on.
- React batches state updates asynchronously. The model applies them in program order within one handler.
- `isSubmitting` disabling the submit button is markup and is not modelled. The flag itself is.
- src/app/components/TypeWriting.tsx, src/app/data.ts, src/app/components/card.tsx and src/app/loading.tsx are not part of this model. They are timers, static data and markup.
