# FantasyFrenzy alerts: subscriber registry and reminder fan-out

A Dafny model of the core of the FantasyFrenzy alert service (`main.py`):
the `users` table of subscribers keyed by email, the upsert, lookup,
listing and unsubscribe operations on it, the reminder fan-out that emails
every subscribed user with a category's flag set, the `/test/{which}`
dispatch by category name, the timezone check of `/signup`, and the
unsubscribe token.

The table is an immutable value: a `map<string, Subscriber>` from email to
record, paired with the emails in first-insert order (the rowid order in
which an unordered `SELECT` returns rows; an `ON CONFLICT` update keeps the
rowid). Every operation is a pure function returning the new table; a
fan-out returns the sequence of `(to, subject, body)` sends it makes and
the count it reports. The clock value `now` is a parameter, and HMAC-SHA256
is a function parameter `mac` of which nothing is assumed except that it
returns a 64-digit lower-case hex string.

Files:
- `results.dfy` — `Option` and `Result`.
- `text.dfy` — Python's `str.strip()` (the `str.isspace()` characters) and `str.lower()` on ASCII letters.
- `subscribers.dfy` — the table, `upsert_user`, `get_user`, `get_all_users`, `set_unsubscribed`.
- `reminders.dfy` — `send_to_matching_users`, the four reminder messages, the cron trigger table, firing a category against the table.
- `endpoints.dfy` — `signup`'s timezone check and the `test` handler's category dispatch.
- `unsubscribe_token.dfy` — `make_unsub_token` and `verify_unsub_token`.

The four reminder wrappers (`thursday_reminder` .. `waiver_reminder`)
differ only in the alert key, subject and body they pass; they are
modelled as one function `Reminders.Fire` over a `Category` and the table
`Reminders.MessageFor` of their constants.

## Model

| member | source | states |
|---|---|---|
| Subscribers.Upsert | main.py:157-182 | An unseen email gains exactly one record with the given timezone and flags, subscribed, created at `now`, listed last; a known email gets its timezone and four flags overwritten while `created_at`, `unsubscribed` and its position are kept and the size is unchanged; every other record is unchanged |
| Subscribers.LastUpsertWins | main.py:162-170 | Two upserts of one email equal a single upsert with the second call's timezone and flags and the first call's `created_at` |
| Subscribers.UpsertIdempotent | main.py:162-170 | Repeating an upsert with the same arguments, at any later clock value, leaves the table as one upsert did |
| Subscribers.GetAfterUpsert | main.py:121-182 | After an upsert, `get_user` of that email shows the new timezone and flags and the unsubscribe flag it had before (false when new) |
| Subscribers.UpsertKeepsUnsubscribe | main.py:146-182 | Signing up again after unsubscribing leaves the user unsubscribed |
| Subscribers.GetUser | main.py:121-143 | Nothing exactly when the email is not stored; otherwise that email with its record's timezone, flags and unsubscribe flag |
| Subscribers.Snapshot | main.py:98-119 | One row per stored record, each email once, in insertion order, each row holding that email's stored timezone, flags and unsubscribe flag |
| Subscribers.TableSize | main.py:67-78 | Because `email` is unique, the number of records equals the number of listed emails |
| Subscribers.SetUnsubscribed | main.py:146-154 | A stored email gets only its unsubscribe flag set to the argument; an unknown email leaves the table unchanged; no record is added, removed or reordered |
| Subscribers.SetUnsubscribedIdempotent | main.py:149-152 | Setting the unsubscribe flag twice equals setting it once |
| Reminders.FanOut | main.py:311-324 | The count equals the number of sends; every send carries the given subject and body; the recipients are exactly the emails of the snapshot's users that are not unsubscribed and have the category's flag; with distinct emails in the snapshot nobody is sent twice; the recipients are the matching users' emails in snapshot order |
| Reminders.MatchingAppend | main.py:315-322 | Filtering a snapshot in two parts gives the first part's matching users before the second's: the filter keeps snapshot order |
| Reminders.FanOutSnoc | main.py:315-322 | Serving one more user at the end of the snapshot appends its send after all earlier sends and adds one to the count when it matches, and changes nothing otherwise |
| Reminders.MatchingDistinct | main.py:315-322 | A snapshot with distinct emails yields matched users with distinct emails |
| Reminders.SendToMatching | main.py:311-324 | The loop as written (skip unsubscribed, send when the flag is set, count) produces exactly the sends and count of the reference fan-out |
| Reminders.Fire | main.py:311-352 | Firing a category on the table: every recipient is stored, not unsubscribed and has the category's flag; every such user is a recipient exactly once; all sends carry that category's subject and body; the count equals the size of that audience; sends follow snapshot order |
| Reminders.UnsubscribedGetsNothing | main.py:316-318 | A user marked unsubscribed receives no category's reminder |
| Reminders.OtherCategoryGetsNothing | main.py:320-322 | A user without a category's flag receives nothing when that category fires |
| Reminders.SignupThenWaiver | main.py:347-352 | A first signup of `bob@x.com` with every category on, then the waiver reminder, sends exactly one email, to `bob@x.com`, with the waiver subject and body |
| Reminders.MessageFor | main.py:326-352 | Every reminder subject starts with "FantasyFrenzy 🔔 " and every body is non-empty |
| Reminders.SubjectsDistinct | main.py:326-352 | Different categories send different subjects |
| Reminders.TriggerFor | main.py:357-361 | Each category's weekly trigger is evaluated in the scheduler's zone, America/New_York, at a valid hour and minute |
| Endpoints.Signup | main.py:201-214 | A timezone without `/` is answered with 400 "Invalid timezone" and the table is unchanged; otherwise the email is echoed back, its record shows the requested timezone and flags, and no other email's record changes; the resulting table is exactly that of the upsert, so a new email is stamped `now` and a known one keeps its `created_at`, unsubscribe flag and position |
| Endpoints.DefaultSignupAccepted | main.py:190-196 | The request body's default timezone passes the check |
| Endpoints.ParseCategory | main.py:413-421 | Exactly the four names `thu`, `sat`, `sun`, `waiver` are recognised, each as the category of that name |
| Endpoints.ParseCategoryName | main.py:413-420 | Every category is recognised by its own name |
| Endpoints.RunTest | main.py:410-423 | Runs exactly when the lower-cased name is one of the four, reporting the lower-cased name and the fan-out of that category; otherwise answers "use thu, sat, sun, waiver" and sends nothing |
| Endpoints.RunTestCaseInsensitive | main.py:412 | A name and its lower-cased form give the same outcome |
| Endpoints.RunTestUpperCase | main.py:410-420 | `WAIVER` runs the waiver reminder and reports `waiver` |
| Text.Lower | main.py:412 | Same length; each character lower-cased, ASCII capitals only; no upper-case ASCII letter remains (also applied to emails at main.py:391) |
| Text.Strip | main.py:391 | The result is the slice of the input between its leading and its trailing whitespace: everything dropped is whitespace and the result has none at either end |
| Text.StripOfStripped | main.py:391 | `strip()` leaves a string without whitespace at either end unchanged |
| Text.StripLower | main.py:391 | Stripping and lower-casing commute |
| UnsubscribeToken.Normalize | main.py:391 | The normal form is the stripped email with each character lower-cased: no whitespace at either end and no upper-case ASCII letter |
| UnsubscribeToken.NormalizeIdempotent | main.py:391 | Normalising twice equals normalising once |
| UnsubscribeToken.Configured | main.py:384-386 | Holds exactly when `SECRET_KEY` and `BASE_URL` are both set and non-empty |
| UnsubscribeToken.MakeUnsubToken | main.py:384-396 | Fails exactly when the secret or base URL is unset or empty; otherwise the MAC under the secret of the normalised email |
| UnsubscribeToken.TokenOfNormalForm | main.py:388-396 | An email and its normal form have the same token |
| UnsubscribeToken.TokenIgnoresCase | main.py:391-396 | Lower-casing the email does not change its token |
| UnsubscribeToken.TokenIgnoresLeadingSpace | main.py:391-396 | Leading whitespace in the email does not change its token |
| UnsubscribeToken.HexDigestIsAscii | main.py:392-396 | A hex digest is pure ASCII |
| UnsubscribeToken.VerifyUnsubTokenAsWritten | main.py:398-401 | Without configuration it fails; with it, a non-ASCII token raises instead of being rejected, and an ASCII token (a missing one counts as empty) is accepted exactly when it equals the email's token |
| UnsubscribeToken.AsWrittenRaisesOnNonAsciiToken | main.py:401 | With configuration set, the token `é` makes the check raise |
| UnsubscribeToken.VerifyUnsubToken | main.py:398-401 | Fails exactly without configuration; otherwise true exactly when a token is given and equals the email's own token |
| UnsubscribeToken.VerifyAcceptsOwnToken | main.py:388-401 | A token made for an email verifies, in both versions, for any spelling of that email with the same normal form |
| UnsubscribeToken.VerifyAgreesWhereAsWrittenAnswers | main.py:398-401 | Wherever the code as written returns an answer, the corrected check returns the same answer |

## Left out

- Text.Lower: only the ASCII capitals `A`-`Z` are lower-cased, while Python's `str.lower()` maps every Unicode letter. For the `/test/{which}` dispatch this changes no outcome: outside `A`-`Z`, only U+0130 (to `i` followed by U+0307) and U+212A (to `k`) lower-case into ASCII letters, and neither can produce `thu`, `sat`, `sun` or `waiver`, since the U+0307 stays and none of the names has a `k`.
- UnsubscribeToken.Normalize: because of the above, an email with non-ASCII capitals has a different normal form, and so a different token, in the model than in Python.
- SQLite connection handling, `db_init` and `db_migrate`: persistence plumbing; the table is a value. The `id` column appears only as the insertion order.
- `send_email`, `send_welcome_email` and the `yagmail` client: a send is a recorded `Send` event. A failing send raises out of `send_to_matching_users` and ends the batch; the model has no failing send. The code does not contain failures per recipient, so the model does not either, and the count is that of sends made.
- The log line printed at the end of `send_to_matching_users` (main.py:324).
- `send_to_matching_users` takes the alert key as a string and reads it with `dict.get`; the model takes a `Category`, since only the four `alert_*` keys are ever passed.
- The `BackgroundScheduler`, its start and `atexit` shutdown: a timer runtime. Only the table of triggers is modelled, by `Reminders.TriggerFor`.
- FastAPI routing, templates, `root`, `/landing`, `/confirmed`, `/users` and `/test-email`: HTTP and UI glue.
- `signup_web`: form-to-bool coercion and a welcome email around the same upsert; it performs no timezone check.
- `make_token` and `verify_token` (main.py:277-306): they read a `SIGNING_SECRET` that is only ever bound as a local of `signup_web`, and lines 295-306 follow a `return`.
- `build_unsub_link`: URL formatting over environment configuration. No `/unsubscribe` route exists in `main.py`, so nothing calls `verify_unsub_token`.
- Email address validation (`EmailStr`): done at the request boundary. `SignupRequest.email` stands for the address after that validation's normalisation (surrounding whitespace stripped, domain lower-cased), which is what is upserted, keyed on and echoed.
- HMAC-SHA256 and the constant-time property of `hmac.compare_digest`: foreign cryptography; the MAC is a parameter and the comparison is equality (plus the ASCII check that raises).
- `datetime.now()`: the clock value is the `now` parameter.
- Concurrency between the scheduler thread and request handlers: every operation is one atomic step on the table.

## Findings

| source | as written | input that shows it | evidently intended | confidence | as-written member | corrected member |
|---|---|---|---|---|---|---|
| main.py:398-401 | `hmac.compare_digest` is given two `str` values, and CPython raises `TypeError` when either contains a non-ASCII character, so a garbled token makes the check raise instead of returning false | `SECRET_KEY` and `BASE_URL` set, any email, token `é` | return false for every token other than the email's own, as the try/except of `verify_token` (main.py:286-291) does | medium, not executed | UnsubscribeToken.AsWrittenRaisesOnNonAsciiToken | UnsubscribeToken.VerifyUnsubToken |
