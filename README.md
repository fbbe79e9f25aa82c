# Birthday voucher lifecycle, modelled in Dafny

This project models the core of a small birthday-loyalty service for a cafe.
Customers sign up with a name, an email address, a phone number and a birth
day and month. Each customer is given a voucher code "TWC-<n>". A daily job
does three things:
- it regenerates a customer's voucher 8 days after their birthday;
- it sends a two-week reminder (template `1ST_2WEEKS` before the first
  birthday after signup has passed, `2ND_2WEEKS` after it);
- it sends a one-month reminder (only once the first birthday has passed).

Messages go out through two HTTP APIs, an email service and an SMS service.
Each send retries with exponential backoff. A separate webhook validates an
incoming request and sends one voucher by email and/or SMS.

Modules (one file each):

- `common.dfy` (Common): `Option`, and Python truthiness of optional strings and ints.
- `dates.dfy` (Dates): proleptic-Gregorian dates as `datetime.date` has them.
  - Construction is partial (`MakeDate`).
  - Dates compare as tuples.
  - `date ± timedelta(days = n)` is `AddDays`, whose effect on `toordinal()` is integer addition.
- `services.dfy` (Services): the voucher allocator `get_next_voucher_code`.
  - It is a pure function over the stored codes.
  - The suffix parse (`LOCATE`, `SUBSTRING`, `CAST AS UNSIGNED`) and `MAX` are functions over strings.
  - `CAST` skips leading blanks and saturates at 2^64 - 1. Python's `max_code + 1` does not wrap, so once a stored suffix reaches 2^64 - 1 the allocator returns the same code on every call (`SaturatedAllocationRepeats`). Distinct suffixes are therefore proved only while there is headroom below that ceiling.
- `http.dfy` (Http): the retry-loop specification shared by both dispatchers (first success, attempts, backoffs).
  - `Channel` is a class standing for a remote endpoint. It holds an oracle sequence of responses, a log of posted bodies and a ghost log of `time.sleep` durations.
- `send_email.dfy` (Mailer): `MailerSendClient.send_email`, covering the payload, the attachment guard and the retry loop.
- `send_sms.dfy` (Sms): `CellCastClient.send_sms_template`, covering the conditional payload keys and the retry loop with its two-level status check.
- `request.dfy` (Request): what the handlers read.
  - JSON fields, `str.strip()`, `os.getenv`.
  - The `Authorization` check.
  - The voucher image URL.
- `lifecycle.dfy` (Lifecycle): the per-user date logic of `daily_check` as one function, `Evaluate`, with its properties.
- `routes.dfy` (Routes): the user table as a class (`UserStore`), the whole `daily_check` loop (`DailyCheck`) and `signup` (`Signup`).
  - `Run` specifies `daily_check` on values, one `Step` per stored user.
- `webhook.dfy` (Webhook): `is_valid_email`, `is_valid_phone`, the template mappings, and the checks and sends of `birthday_webhook`.

The model follows the code. Where it differs from the source's own comments
and docstrings, or from an easy reading of it:
- The first birthday is on or after the signup date. It moves to the next year only when it is strictly earlier, so a birthday on the signup day counts. A customer who signs up on 2023-01-10 with a 15 January birthday has first birthday 2023-01-15. On 2024-01-01 they get the `2ND_2WEEKS` template, and on 2024-12-16 they get the one-month reminder (`SignupExample*`).
- Voucher regeneration and a reminder never fall on the same day for one customer (`DueActionsExclusive`).
- There is no "already processed today" guard. Running `daily_check` twice on a voucher day regenerates the voucher twice.
- A 29 February birthday is skipped in a non-leap year. In a leap year one of the unguarded date constructions raises (`LeapDayRaises`, `LeapDayStopsRun`). That stops the whole run with a 500, and later customers are not processed.
  - The first-birthday construction (routes.py:182, or 184 for a leap-year signup after 29 February) raises when its year is not a leap year. That comes before the voucher step, so no UPDATE is made. Example: signup 2023-05-01, birthday 29/2, today 2024-03-08.
  - Otherwise the last-birthday construction (routes.py:191) raises before today's birthday, also before the voucher step. On or after it, the upcoming-birthday construction (routes.py:205) raises after the voucher step; if the voucher was due that day, its UPDATE has already been committed.
- The webhook's comment says a missing voucher code will be generated. The code answers 400 "Missing voucher code." instead, after the format check.

## Model

| member | source | states |
|---|---|---|
| Dates.MakeDate | routes.py:175-179 | `datetime.date(y, m, d)`: the date when it exists, otherwise the ValueError; definition, its properties are proved in MakeDateFailsOnlyOnLeapDay |
| Dates.ToOrdinal | routes.py:183 | `date.toordinal()`; definition, its properties are proved in OrdinalMonotone, OrdinalInjective and AnniversaryGap |
| Dates.MakeDateFailsOnlyOnLeapDay | routes.py:175-179 | a month/day that exists in some year fails to exist in year y exactly when it is 29 February and y is not a leap year |
| Dates.AddDays | routes.py:192 | `d + timedelta(days=n)` is a valid date whose ordinal is the ordinal of d plus n |
| Dates.AddDaysCharacterized | routes.py:209-210 | a valid date e is `d + n days` if and only if its ordinal is d's plus n |
| Dates.AddDaysRoundTrip | routes.py:192 | shifting by n days and back by n days returns the original date |
| Dates.AddDaysOrder | routes.py:194 | a positive shift gives a strictly later date, a negative one a strictly earlier date |
| Dates.OrdinalMonotone | routes.py:183 | tuple comparison of valid dates agrees with comparison of their ordinals |
| Dates.OrdinalInjective | routes.py:220 | two valid dates with the same ordinal are equal |
| Dates.AnniversaryGap | routes.py:204-207 | the same month/day in consecutive years is 365 or 366 days apart |
| Dates.NearbyDates | routes.py:188-191 | a date at most 31 days after another is in the same year or the first days of January after a December date |
| Dates.NextDay | routes.py:192 | the next calendar day is valid and one ordinal later |
| Dates.PrevDay | routes.py:209 | the previous calendar day is valid and one ordinal earlier |
| Lifecycle.Evaluate | routes.py:174-236 | the per-user decision of `daily_check`; definition, its properties are proved in EvaluationOutcome, VoucherDueIff, TwoWeekReminderIff, OneMonthReminderIff and DueActionsExclusive |
| Lifecycle.FirstBirthday | routes.py:182-184 | the first birthday after signup; definition, its properties are proved in FirstBirthdayIsEarliest and FirstBirthdayCore |
| Lifecycle.LastBirthday | routes.py:188-191 | the last birthday on or before today; definition, its properties are proved in BirthdaysBracketToday and LastWhenNear |
| Lifecycle.UpcomingBirthday | routes.py:204-207 | the next birthday after today; definition, its properties are proved in BirthdaysBracketToday and UpcomingWhenNear |
| Lifecycle.VoucherDue | routes.py:192-194 | the voucher guard; definition, its properties are proved in VoucherCore, VoucherDueIff and VoucherGuardRedundant |
| Lifecycle.EvaluationOutcome | routes.py:175-191 | a user is skipped iff this year's birthday does not exist; the evaluation raises iff the birthday is 29 February in a leap year; otherwise it is evaluated |
| Lifecycle.LeapDayRaises | routes.py:188-191 | a 29 February birthday evaluated in a leap year raises at an unguarded construction |
| Lifecycle.OrdinaryBirthdayEvaluates | routes.py:182-207 | every construction succeeds for a birthday other than 29 February that exists this year |
| Lifecycle.BirthdaysBracketToday | routes.py:188-207 | last birthday <= today < upcoming birthday, both fall on the birth month/day, and they are one year apart |
| Lifecycle.BracketCore | routes.py:188-191 | the two branches of the last/upcoming birthday choice pick the occurrences around today |
| Lifecycle.FirstBirthdayIsEarliest | routes.py:182-185 | the first birthday is the earliest birth month/day on or after signup (the signup day itself counts); it has passed iff today is on or after it |
| Lifecycle.FirstBirthdayCore | routes.py:182-184 | the roll-forward on strict `<` yields the least occurrence at or after the signup date |
| Lifecycle.UpcomingWhenNear | routes.py:204-207 | when the birth month/day falls 1 to 31 days ahead, that day is the upcoming birthday |
| Lifecycle.LastWhenNear | routes.py:188-191 | when the birth month/day fell 0 to 31 days ago, that day is the last birthday |
| Lifecycle.VoucherCore | routes.py:192-194 | the voucher guard holds iff the day 8 days before today is on the birth month/day |
| Lifecycle.VoucherDueIff | routes.py:192-201 | the voucher is regenerated exactly when today minus 8 days has the birth month/day |
| Lifecycle.VoucherGuardRedundant | routes.py:194 | `today > last_birthday` follows from `today == last_birthday + 8 days` |
| Lifecycle.ReminderCore | routes.py:209-220 | today is the upcoming birthday minus k days iff the birth month/day falls k days ahead |
| Lifecycle.TwoWeekReminderIff | routes.py:209-227 | the two-week reminder fires iff the birthday is 14 days ahead; template 1ST_2WEEKS before the first birthday has passed, 2ND_2WEEKS after |
| Lifecycle.OneMonthReminderIff | routes.py:209-236 | the one-month reminder fires iff the birthday is 30 days ahead and the first birthday has passed |
| Lifecycle.ExclusiveCore | routes.py:192-236 | from the anniversary gap: the 14- and 30-day reminder days differ, and neither is 8 days after the last birthday |
| Lifecycle.DueActionsExclusive | routes.py:192-236 | for one user on one day at most one reminder fires, and never on a voucher regeneration day |
| Lifecycle.SignupExampleReminder | routes.py:182-227 | signup 2023-01-10, birthday 15 January: first birthday 2023-01-15, and on 2024-01-01 the two-week reminder uses 2ND_2WEEKS |
| Lifecycle.SignupExampleVoucher | routes.py:188-201 | the same customer's voucher is regenerated on 2024-01-23 |
| Lifecycle.SignupExampleOneMonth | routes.py:229-236 | the same customer gets the one-month reminder on 2024-12-16 |
| Services.DashIndex | services.py:12 | `LOCATE('-', code)` as a 0-based index: the first '-' or, when there is none, the length |
| Services.LeadingDigits | services.py:12 | the longest digit prefix of the text; `CAST AS UNSIGNED` reads it after the leading blanks |
| Services.SkipBlanksDropsBlanks | services.py:12 | what `CAST` skips first is exactly the leading blanks (space, tab, line feed, vertical tab, form feed, carriage return) |
| Services.CastUnsigned | services.py:12 | `CAST(t AS UNSIGNED)`: the value of the digits after the leading blanks, saturating at 2^64 - 1, which it never exceeds |
| Services.Suffix | services.py:12 | the number read from one stored code; definition, its properties are proved in SuffixOfAllocated and SuffixWithoutDash |
| Services.MaxSuffix | services.py:12-16 | `MAX(...)` over the suffixes of the non-NULL codes; definition, its properties are proved in MaxSuffixIsMax |
| Services.NextSuffix | services.py:16-17 | MAX + 1, or 1000 when MAX is NULL; definition, its properties are proved in NextCodeExceedsStored and EmptyStoreGivesTwc1000 |
| Services.NextVoucherCode | services.py:10-20 | `get_next_voucher_code`; definition, its properties are proved in NextCodeExceedsStored, EmptyStoreGivesTwc1000, SequentialAllocationsIncrease and SaturatedAllocationRepeats |
| Services.DecimalString | services.py:17 | `str(n)` is a non-empty run of digits with no leading zero |
| Services.DecimalRoundTrip | services.py:12-17 | reading back the digits `str(n)` wrote gives n |
| Services.SuffixOfAllocated | services.py:12-17 | the suffix parse of "TWC-" + str(n) gives back n, or 2^64 - 1 when n is larger |
| Services.SuffixWithoutDash | services.py:12-13 | a code without '-' contributes its whole text, and 0 when it starts with neither a digit nor a blank |
| Services.MaxSuffixIsMax | services.py:12-16 | the fold is SQL MAX: NULL iff every code is NULL, otherwise the suffix of some stored code and at least every stored suffix |
| Services.EmptyStoreGivesTwc1000 | services.py:16-17 | with no non-NULL code the allocator returns "TWC-1000" |
| Services.NextCodeExceedsStored | services.py:12-17 | the code is "TWC-" then digits; its suffix is at least 1 and is MAX + 1 up to the ceiling; unless MAX is at the ceiling it exceeds every stored suffix |
| Services.SequentialAllocationsIncrease | services.py:10-20 | after storing an allocated code the next allocation has a strictly larger suffix while below 2^64 - 1, and stays at 2^64 - 1 once there |
| Services.SaturatedAllocationRepeats | services.py:12-17 | once MAX is 2^64 - 1, storing the allocated code and allocating again yields the same code |
| Http.FirstSuccessFrom | send_email.py:65-77 | the first accepted attempt at or after i and below `retries`, with every earlier one failing; None when none below `retries` succeeds |
| Http.FirstSuccess | send_email.py:65-90 | the first accepted attempt among the first `retries`; definition, its properties are proved in FirstSuccessFrom, AttemptsSpec and FirstSuccessAt |
| Http.Attempts | send_email.py:65-90 | the number of POSTs the retry loop makes; definition, its properties are proved in AttemptsSpec |
| Http.FirstSuccessAt | send_email.py:75-77 | if attempt k is accepted and every earlier one failed, the loop succeeds at k |
| Http.Backoffs | send_email.py:85-87 | one sleep per failed attempt |
| Http.AttemptsSpec | send_email.py:65-90 | never more than `retries` attempts; all of them when none succeeds; the last attempt is the first success; every failed attempt really failed |
| Http.DefaultBackoffs | send_email.py:85-87 | with the default factor 2, three failures sleep 2, 4 and 8 seconds |
| Http.BackoffsIncrease | send_sms.py:133-136 | for a factor of at least 2 the sleeps strictly increase |
| Http.Channel.Post | send_email.py:69-73 | a POST consumes the next oracle response (a RequestException once none is left) and logs the body |
| Http.Channel.Sleep | send_email.py:87 | `time.sleep` logs its duration and changes nothing else |
| Mailer.Basename | send_email.py:47 | `os.path.basename`: the text after the last '/', containing no '/' |
| Mailer.Verdicts | send_email.py:75-77 | an attempt succeeds iff its response is an HTTP status in [200, 300) |
| Mailer.PayloadFor | send_email.py:22-58 | the JSON body `send_email` posts; definition, its properties are proved in PayloadContents and AttachmentGuard |
| Mailer.PayloadContents | send_email.py:22-51 | the payload names the template, has the recipient in `to` and `variables`, binds `username` to the name, and has `attachments` iff a path was given and read |
| Mailer.AttachmentGuard | send_email.py:37-58 | the attachment step fails iff a path is given whose file is missing or unreadable |
| Mailer.MailerSendClient.SendEmail | send_email.py:20-90 | False with no POST and no sleep when the attachment fails; otherwise the result, the posts and the sleeps of the retry loop |
| Mailer.MailerSendClient.Deliver | send_email.py:65-90 | True at the first 2xx and no more attempts; at most `retries` POSTs of the same payload; a sleep of `factor ** attempt` after every failed attempt, the last one included |
| Sms.PayloadFor | send_sms.py:93-107 | the JSON body `send_sms_template` posts; definition, its properties are proved in PayloadKeys |
| Sms.PayloadKeys | send_sms.py:93-107 | `template_id` and `numbers` always; each optional key present iff its value is truthy, with that value; a delay of 0 is left out |
| Sms.Verdicts | send_sms.py:117-125 | an attempt succeeds iff HTTP 200 and `meta.code` 200 |
| Sms.OkStatusIsNotEnough | send_sms.py:123-127 | an HTTP 200 whose body reports another code is a failed attempt, and the loop goes on |
| Sms.CellCastClient.BuildPayload | send_sms.py:93-107 | the payload built key by key is the one PayloadKeys describes |
| Sms.CellCastClient.SendSmsTemplate | send_sms.py:109-139 | True at the first accepted attempt; at most `retries` POSTs; a sleep of `factor ** attempt` after every failure; nothing sent when `retries <= 0` |
| Request.StripStart | webhook_app.py:74-78 | what `lstrip` drops is white space, and what it keeps is a suffix not starting with white space |
| Request.StripEnd | webhook_app.py:74-78 | what `rstrip` drops is white space, and what it keeps is a prefix not ending with white space |
| Request.Strip | routes.py:60-62 | `str.strip()`; definition, its properties are proved in StripIsInfix, StripDropsSpace, StripEnds, StripEmptyIff and StripIdempotent |
| Request.StripIsInfix | routes.py:60-62 | `strip()` keeps a contiguous piece of the input, starting after its leading white space |
| Request.StripDropsSpace | routes.py:60-62 | everything `strip()` removes around that piece is white space |
| Request.StripEnds | webhook_app.py:74-78 | a non-empty stripped value neither starts nor ends with white space |
| Request.StripEmptyIff | routes.py:60-67 | a field strips to "" exactly when it is all white space, so an all-blank field counts as missing |
| Request.StripIdempotent | webhook_app.py:74-78 | stripping twice is stripping once |
| Request.FieldText | webhook_app.py:74-78 | `data.get(key, default).strip()` fails exactly when the value is not a string |
| Request.Getenv | webhook_app.py:82-84 | `os.getenv(name)` is None exactly when the variable is unset |
| Request.GetenvOr | routes.py:222-223 | `os.getenv(name, default)`; definition, used by Routes.Remind and Routes.SendWelcome, whose contracts state the template IDs posted |
| Request.Authorized | routes.py:151-153 | the `Authorization` check; definition, its consequences are stated by Routes.DailyCheck, Webhook.Decide and Webhook.UnauthorizedIgnoresBody |
| Request.ImageUrl | routes.py:213 | the voucher image URL; definition, the SMS contracts of Routes.Remind, Routes.SendWelcome and Webhook.Dispatch state that it is sent |
| Routes.SetCode | routes.py:196-197 | `UPDATE ... SET voucher_code WHERE id` changes only the code of rows with that id |
| Routes.SetFlags | routes.py:133-134 | `UPDATE ... SET email_sent, sms_sent WHERE id` changes only the flags of rows with that id |
| Routes.UserStore.HasEmail | routes.py:74-76 | the duplicate-email query finds a row iff some stored row has that email (EmailTaken) |
| Routes.UserStore.Insert | routes.py:86-93 | appends one row with the next id, both flags 0 and the given code, and returns its id |
| Routes.UserStore.UpdateVoucherCode | routes.py:196-198 | the store's rows become SetCode of the old rows |
| Routes.UserStore.UpdateFlags | routes.py:133-135 | the store's rows become SetFlags of the old rows |
| Routes.Regenerate | routes.py:195-197 | the UPDATE with a freshly allocated code; definition, its properties are proved in RunChangesOnlyCodes, RegenerateKeepsDistinct and RegenerateUsesHeadroom |
| Routes.Step | routes.py:165-242 | one user's pass of `daily_check` on values; definition, its properties are proved in StepFromAnyPlan, StepKeepsDistinct and CrashPersists, and Routes.CheckUser is proved against it |
| Routes.Run | routes.py:164-242 | `daily_check`'s loop on values; definition, its properties are proved in RunOutcome, RunChangesOnlyCodes, LeapDayStopsRun, RunKeepsSuffixesDistinct and CrashPersists, and Routes.DailyCheck is proved against it |
| Routes.Evaluations | routes.py:164-179 | one evaluation per user of the snapshot |
| Routes.RunChangesOnlyCodes | routes.py:164-242 | a run changes no field but `voucher_code` (the flags included), and a code changes only for a user whose voucher is due |
| Routes.RunOutcome | routes.py:164-242 | the run stops with an exception iff some user's evaluation raises; otherwise there is exactly one entry per evaluated user, in store order, and skipped users get none |
| Routes.LeapDayStopsRun | routes.py:188-207 | a 29 February birthday in a leap year stops the whole run |
| Routes.FreshCodeFits | routes.py:195-197 | with headroom below 2^64 - 1, the allocated code's suffix is above every stored suffix and uses one allocation of the headroom |
| Routes.RegenerateKeepsDistinct | routes.py:195-197 | regenerating a voucher keeps stored suffixes pairwise distinct while no stored suffix is at 2^64 - 1 |
| Routes.RegenerateUsesHeadroom | routes.py:195-197 | a regeneration uses up one allocation of headroom below 2^64 - 1 |
| Routes.StepKeepsDistinct | routes.py:165-201 | one user's pass keeps suffixes distinct and uses at most one allocation of headroom |
| Routes.RunKeepsSuffixesDistinct | routes.py:164-201 | a whole run keeps stored voucher suffixes pairwise distinct when one allocation per user fits below 2^64 - 1 |
| Routes.CrashPersists | routes.py:164-242 | once a user raises, no later user changes anything |
| Routes.Remind | routes.py:220-236 | one reminder: the email with the reminder template and no attachment, then the SMS carrying the current voucher's image URL; each posted as often as its retry loop attempts, and the outcomes are the loops' results |
| Routes.SendReminders | routes.py:212-236 | the two-week reminder when due, then the one-month reminder when due, the second reading the responses the first left; the posts of each channel and the `Sent` outcomes of each reminder |
| Routes.CheckUser | routes.py:165-242 | one loop pass: store and result as Step says; it stops iff the evaluation raised, and then sends nothing; the UPDATE precedes the raise; for an evaluated user, the due reminders are posted (SMS with the image URL of the code after the UPDATE) and the result records each channel's outcome; the id counter is unchanged |
| Routes.DailyCheck | routes.py:151-242 | 401 with no row changed and nothing posted without the secret; otherwise the store ends as Run leaves it, the answer is 500 iff the run raised and a result list iff it did not, and the results are Run's entries; the id counter is unchanged |
| Routes.Screen | routes.py:56-67 | the guards before the database: 400 without a body, 500 when `.strip()` raises, 400 on a missing field, otherwise admission of the stripped fields |
| Routes.Admission | routes.py:56-79 | all guards in order: those of Screen, then 400 on an email already stored, and otherwise admission of the stripped fields |
| Routes.Signup | routes.py:56-140 | a rejected request stores and sends nothing; an admitted one inserts one row with the next voucher code and today's date, whose flags record the send outcomes; the welcome email and SMS are posted and their outcomes returned as Routes.SendWelcome states |
| Routes.Register | routes.py:82-135 | one row appended with the allocated code, the welcome messages posted as Routes.SendWelcome states, and the flags set from their outcomes |
| Routes.FlagsOfNewRow | routes.py:133-134 | updating the flags of the new row, whose id is above all others, changes only that row |
| Routes.SendWelcome | routes.py:109-130 | the welcome email, to the new customer with the welcome template and the PDF attached, only when a PDF was produced and can be read (otherwise False and no POST); the welcome SMS always, with the voucher's image URL; each posted as often as its retry loop attempts, with the loop's outcome |
| Routes.SignupKeepsDistinct | routes.py:82-91 | inserting the allocated code keeps stored voucher suffixes pairwise distinct while no stored suffix is at 2^64 - 1 |
| Webhook.IsValidPhone | webhook_app.py:57-58 | `is_valid_phone`; definition, its properties are proved in PhoneShape and PhoneWithFinalNewline |
| Webhook.IsValidEmail | webhook_app.py:53-55 | `is_valid_email`; definition, its properties are proved in EmailShape, EmailTrailingText, EmailAccepted, EmailAcceptedWithText, EmailLeadingDot and EmailShortTld |
| Webhook.PhoneShape | webhook_app.py:57-58 | a number with no trailing white space is valid iff it is "61" or "+61" followed by 9 digits |
| Webhook.PhoneWithFinalNewline | webhook_app.py:57-58 | `$` also matches before a final newline: "61412345678\n" is valid; a trailing space or a 10-digit number is not |
| Webhook.EmailShape | webhook_app.py:53-55 | an accepted address starts with a word character, and an '@' after one or more characters is followed by a '.' |
| Webhook.EmailTrailingText | webhook_app.py:53-55 | with no end anchor, text after an accepted address that starts with a non-word character is ignored |
| Webhook.EmailAccepted | webhook_app.py:53-55 | "jo@cafe.com" is accepted |
| Webhook.EmailAcceptedWithText | webhook_app.py:53-55 | "jo@cafe.com, extra" is accepted |
| Webhook.EmailLeadingDot | webhook_app.py:54 | a leading '.' fails the opening word boundary |
| Webhook.EmailShortTld | webhook_app.py:54 | a one-letter top-level domain is rejected |
| Webhook.EmailTemplateFor | webhook_app.py:81-89 | the three known template types map to their variables, with no fallback even when those are unset; any other type falls back to the default template |
| Webhook.SmsTemplateFor | webhook_app.py:156-161 | the same mapping for the SMS templates |
| Webhook.Decide | webhook_app.py:63-123 | 401 without the token, then 400 without a body, 500 when `.strip()` raises, 400 when both channels are given and invalid, 400 without a voucher code; otherwise which channels are sent |
| Webhook.UnauthorizedIgnoresBody | webhook_app.py:63-66 | without the token the answer is 401, whatever the body |
| Webhook.OneInvalidChannelProceeds | webhook_app.py:115-118 | an invalid email next to an absent or valid phone does not reject the request; only the email is left unsent |
| Webhook.BirthdayWebhook | webhook_app.py:60-195 | a rejection sends nothing; otherwise the answer is success with the two outcomes, and the posts and outcomes are those Webhook.Dispatch states |
| Webhook.Dispatch | webhook_app.py:125-180 | email only to a given, valid address when the PDF was produced and can be read (otherwise False and no POST), with the mapped template and the PDF; SMS only to a given, valid number, with the mapped template and the voucher's image URL |

## Left out

- Flask routing, JSON parsing, headers, `os.getenv` and the MySQL connection are replaced by inputs:
  - the request body is a record of fields;
  - the header and the secret are optional strings;
  - the environment is a map;
  - the table is `UserStore.rows`.
- A body that is JSON but not an object (a list, a number) is not modelled. The source raises on `.get` for it.
- `create_voucher_pdf.py` is not part of this model. Its result is the parameter `pdfPath`.
- The following are not part of this model: `google_sheets_client.py`, the PHP lookup pages, logging, and the `os.remove` of the PDF.
- `today` (`datetime.date.today()`) is a parameter. The date of signup is that same `today`.
- Attachment reading is the map `files`. Base64 encoding is not modelled: the attachment carries the raw bytes.
- Concurrent signups (the read-then-insert race on the allocator) are not modelled. Allocation is sequential.
- Dates.Valid: years are unbounded. Python's range of 1 to 9999, and the errors at its ends, are not modelled.
- Webhook.IsValidPhone: `\d` is ASCII only. Python's `\d` also accepts non-ASCII decimal digits.
- Webhook.IsValidEmail: the `\b` boundaries use ASCII word characters. Python's `\b` counts non-ASCII letters and digits as word characters, so Python rejects an address directly followed by one (such as "jo@cafe.comé"), which the model accepts.
- Services.CastUnsigned: a sign is not modelled. MySQL accepts a leading '+', and reads a leading '-' as a negative number that it wraps to an unsigned value. Allocated codes never carry a sign.
- Routes.UserStore.HasEmail: the duplicate check is exact string equality. MySQL's default collation compares case-insensitively and ignores trailing spaces.
- Routes.Admission:
  - birth day and month are integers or absent/null;
  - a string or float given for them is not modelled;
  - neither is any range check the database would apply when inserting them.
- Mailer.MailerSendClient.SendEmail, Mailer.MailerSendClient.Deliver and Sms.CellCastClient.SendSmsTemplate require a non-negative backoff factor. With a negative one, `time.sleep` can be passed a negative number and raise, and that is not modelled. Every caller uses the default 2.
- Sms.CellCastClient.SendSmsTemplate: an HTTP 200 whose JSON body is not an object, or whose `meta` is null, a list or a string, is not modelled. There `.get` raises AttributeError, which the loop does not catch, so the error ends the calling handler. The model reads such a response as a failed attempt (no `meta.code`), sleeps and retries.
- Routes.DailyCheck:
  - its contract does not list the messages posted across the whole run; Routes.CheckUser states them for each user, and the run posts them user by user;
  - it does not model the client disconnecting or other exceptions from the database.
- Webhook.BirthdayWebhook: exceptions other than `.strip()` on a non-string field (a failing PDF generator, a database or logging error) are not modelled.
