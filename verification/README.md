# Penn Course Alert — alerting core

Penn Course Alert lets students subscribe to a closed course section and be
notified by email and text message when it opens. This project models its
alerting core:

- registrations: creating one, refusing a duplicate, resubscribing after an
  alert along the `resubscribed_from` chain;
- the dispatcher: grouping the unsent registrations of a semester by section,
  and alerting a section's registrations once fresh course data shows that it
  opened;
- the webhook: the Basic authorization header, its guards in order (401, 405,
  415, 400), the fields it reads from `result_data[0]`, and the course-code
  normaliser `ANTH361401` → `ANTH-361-401`;
- the register and resubscribe pages;
- the data migration that derives the section status column from the open flag
  and back.

The database is the class `Models.Ledger`. A registration's id is its index in
`regs`. A resubscription links back to a smaller id, and each registration is
resubscribed from at most once, and only once its alert is sent. Every chain
stays with one subscriber and one section, and only its last registration can
be active. The email and text senders are recorded as `Delivery` events in the
ledger, so "each alert calls both senders once" is a statement about a
multiset of events. The course API, Base64 decoding, JSON parsing and the
runtime flags (`REGISTRATION_OPEN`, `SEND_FROM_WEBHOOK`, the webhook user and
password, the configured semester) are parameters.

The files are:

- `wrappers.dfy`: Option.
- `choices.dfy`: the status and sent-by choices and their stored codes.
- `strings.dfy`: `str.split` on one character, ASCII lower-casing, substring search.
- `models.dfy`: the entities, the specification functions and the ledger.
- `tasks.dfy`: the Celery tasks.
- `views.dfy`: the views.
- `migration.dfy`: migration 0014.

## Model

| member | source | states |
|---|---|---|
| Strings.Split | pca/views.py:105 | `str.split(sep)`: at least one field, no field contains the separator, and joining the fields with it gives back the string (empty fields are kept) |
| Strings.SplitOfField | pca/views.py:105 | A string without the separator splits into itself alone |
| Strings.SplitOfFieldThenRest | pca/views.py:109 | Splitting `field + sep + rest` gives `field` followed by the fields of `rest` |
| Strings.SplitJoin | pca/views.py:109 | Splitting the join of separator-free fields gives the fields back |
| Models.RepeatedRegistrationRefused | pca/tests.py:172-177 | After a successful request, the identical request is answered OpenRegExists |
| Models.RegistrationSucceedsWithoutOpenDuplicate | pca/tests.py:179-198 | With contact info and no unsent registration of the same email, phone and section, a request succeeds: re-registering after an alert, another section, another course |
| Models.RegistrationOutcome | pca/tests.py:162-213 | The answer to a registration request; Models.RepeatedRegistrationRefused, Models.RegistrationSucceedsWithoutOpenDuplicate and Models.Ledger.Register state when each answer is given |
| Models.ActiveRegistrations | pca/tests.py:293-328 | An id is listed exactly when its registration is unsent, in the semester and of the section with the code; ids are strictly increasing, so no duplicates |
| Models.ActiveRegistrationsStep | pca/tasks.py:42-48 | Looking at one more registration appends its id to its section's list, or nothing |
| Models.AlertStep | pca/tests.py:30-50 | One alert on the registrations and deliveries; it keeps the number of registrations, and Models.AlertStepEffect states its whole effect |
| Models.AlertStepEffect | pca/tests.py:30-50 | When forced, or when the registration is unsent, the alert marks it sent with the tag, calls email and text exactly once for it, and changes nothing else; an unforced alert of a sent registration changes nothing and calls no sender |
| Models.FanOut | pca/tasks.py:32-33 | Alerting every registration of the list keeps the number of registrations |
| Models.FanOutEffect | pca/tasks.py:32-33 | After alerting the list, each listed unsent registration is marked sent with the tag and got exactly one email and one text; every other one is unchanged and got nothing |
| Models.FanOutOverSentIsQuiet | pca/tests.py:38-43 | Alerting registrations that are all sent changes nothing and calls no sender |
| Models.FanOutTwiceIsOnce | pca/tasks.py:32-33 | Dispatching the same list twice has the effect of dispatching it once |
| Models.SuccessorOf | pca/tests.py:234-253 | Finds the registration resubscribed from a given one, or reports that none is |
| Models.Resolve | pca/tests.py:222-280 | The walk lands on an unsent registration at or after the start, or on a sent tail that nothing was resubscribed from |
| Models.Chain | pca/tests.py:234-253 | The forward chain from a registration follows the resubscription links to a registration without successor |
| Models.ResolveIsFirstUnsentOnChain | pca/tests.py:255-280 | The walk returns the first unsent registration on the forward chain; it reports the chain exhausted exactly when all of the chain is sent, and then names its last registration |
| Models.OnlyLastOfChainActive | pca/tests.py:234-280 | On a well-formed ledger every registration of a chain but the last is sent, so a resubscription from anywhere on the chain lands on its last registration |
| Models.ChainStep | pca/tests.py:234-253 | A sent registration in front of a chain extends the chain's sent prefix by one |
| Models.ResolveAfterExtension | pca/tests.py:255-280 | Once a resubscription has extended an exhausted chain, resubscribing again from the same registration returns the new registration and creates nothing |
| Models.Ledger.constructor | pca/tests.py:155-160 | An empty ledger over the given sections satisfies the invariant |
| Models.Ledger.Register | pca/tests.py:162-213 | The answer is NoContactInfo without email and phone, OpenRegExists while an identical unsent registration exists, else Success; exactly one unsent registration is appended on Success and nothing otherwise; the invariant is kept |
| Models.Ledger.Alert | pca/tests.py:30-50 | Sends unless the registration was sent and the alert is not forced; a send calls email and text and marks the registration sent by the tag; nothing else changes |
| Models.Ledger.UpsertSection | pca/tasks.py:29 | Only the section's open flag changes |
| Models.Ledger.Resubscribe | pca/views.py:73 | Returns the requested registration if unsent, else the first unsent one on its chain; when the whole chain is sent, appends one unsent copy linked to the chain's last registration; the result is unsent and has the requester's contact and section; the invariant is kept |
| Tasks.CollectRegistrations | pca/tasks.py:41-48 | Every unsent registration of the semester lands in its section's bucket; each bucket is that section's active list and is non-empty; the key order lists each key once |
| Tasks.PrepareAlerts | pca/tasks.py:36-51 | One task per section with unsent registrations in the semester (the configured one by default); each task carries that section's active list and the semester; no section is queued twice |
| Tasks.GatesDifferExactlyOnOpenToOpen | pca/tests.py:60-82 | The task's gate `now_open and not was_open` and the tests' "open now" condition differ exactly on an open-to-open transition |
| Tasks.SendAlertsForAsWritten | pca/tasks.py:23-33 | As written, with `now_open` read from the section value loaded before the upsert: the section takes the fetched state, but for every fetch result nothing is alerted and the registrations and deliveries are unchanged |
| Tasks.StaleReadMissesOpening | pca/tasks.py:27-31 | For a closed section that the fetch reports open, the gate on the refreshed state passes while the gate on the value read before the upsert does not |
| Tasks.SendGate | pca/tasks.py:31 | The gate `now_open and not was_open`; Tasks.SendAlertsFor, Tasks.GatesDifferExactlyOnOpenToOpen and Tasks.StaleReadMissesOpening state how it decides |
| Tasks.ShouldSendAlert | pca/tests.py:60-82 | The condition the tests expect (open now, whatever before); Tasks.GatesDifferExactlyOnOpenToOpen compares it with the gate |
| Tasks.AlertAll | pca/tasks.py:32-33 | Alerting the listed registrations in turn changes the ledger exactly as the fan-out describes and keeps the invariant |
| Tasks.SendAlertsFor | pca/tasks.py:23-33 | Without data nothing changes; with data the section takes the fetched state, and the registrations are alerted, as the fan-out describes, exactly when the section was closed and is now open |
| Views.DashedRoundTrip | pca/views.py:90 | Joining the three regex groups with dashes gives a canonical code, and removing the dashes gives back the matched text |
| Views.NormalizeCourseId | pca/views.py:84-92 | A code is produced exactly when the string starts with 4 or 3 upper-case letters and 6 digits (4 letters preferred); the code is canonical, and without its dashes it is the matched prefix |
| Views.NormalizeIgnoresSuffix | pca/views.py:88 | The match is anchored at the start only: text after the match is ignored |
| Views.NormalizeExample | pca/tests.py:357 | `ANTH361401` normalises to `ANTH-361-401` |
| Views.ExtractBasicAuth | pca/views.py:99-112 | The header parser; Views.BasicAuthOutcome, Views.CredentialsAreFirstTwoFields, Views.SchemeIsCaseSensitive and Views.PasswordStopsAtColon state its behaviour |
| Views.BasicAuthOutcome | pca/views.py:105-112 | The decoder fails exactly when the scheme is `Basic`, a token follows and the token does not decode; credentials come out exactly when it decodes to text that contains a colon |
| Views.CredentialsAreFirstTwoFields | pca/views.py:109-112 | The user is the decoded text before the first colon, and the password is the text up to the next colon or the end; neither contains a colon |
| Views.SchemeIsCaseSensitive | pca/views.py:106 | A `basic ...` header carries no credentials |
| Views.PasswordStopsAtColon | pca/views.py:109-112 | For `Basic <token>` decoding to `user:password:more`, the credentials are `user` and `password` |
| Views.AuthorizationHeader | pca/views.py:117 | The `Authorization` entry, else `HTTP_AUTHORIZATION`, else ''; used by Views.AcceptWebhook |
| Views.FirstResult | pca/views.py:138 | `data.get('result_data', [{}])[0]`, with None where the list is empty and indexing raises; Views.MissingFieldAnsweredOk covers the missing key |
| Views.AcceptWebhook | pca/views.py:116-157 | The webhook's verdict; Views.WebhookGuardOrder, Views.WebhookAlertsIff, Views.MissingCourseSectionAnsweredOk and Views.WebhookMessageReportsAlert state its behaviour |
| Views.WebhookGuardOrder | pca/views.py:116-136 | 401 exactly when the decoder did not fail and the credentials are not the configured ones; 405, 415 and 400 exactly when the earlier checks pass and this one fails; a missing field or an accepted hook implies that all of these checks passed |
| Views.WebhookAlertsIff | pca/views.py:138-157 | An alert is queued exactly when the checks pass, the first result has course_section, status and term, webhook alerts are on and the status is 'O'; the alert has the normalised id, the term and the WEB tag |
| Views.ResponseStatus | pca/views.py:123-157 | 200 exactly for an accepted hook, 500 exactly for an exception, a 4xx code for every rejection |
| Views.StatusAsWritten | pca/views.py:140 | The status code as written, 200 for a missing field because the positional 400 is the content type; Views.MissingFieldAnsweredOk states the discrepancy |
| Views.MissingCourseSectionAnsweredOk | pca/views.py:138-140 | A request that passes the guards but whose first result lacks course_section is refused without an alert; as written it is answered 200, while 400 is intended |
| Views.MissingFieldAnsweredOk | pca/tests.py:406-417 | The test's body `{"hello": "world"}`, which has no result_data, is refused without an alert; as written it is answered 200, while the test expects 400 |
| Views.ReceivedMessage | pca/views.py:152-157 | The answer starts with "webhook recieved" and contains "sent" exactly when alerts were sent |
| Views.WebhookMessageReportsAlert | pca/tests.py:355-404 | The message of an accepted webhook contains "sent" exactly when webhook alerts are on and the status is 'O' |
| Views.RegisterView | pca/views.py:37-65 | Closed registration redirects, and a non-POST is not found; neither touches the ledger. A POST gives the banner of the registration answer and changes the ledger as `Register` does |
| Views.ResubscribeView | pca/views.py:68-76 | An unknown id is not found and changes nothing; otherwise the ledger changes as `Resubscribe` does, and the banner names the section of the requested registration |
| SectionStatusMigration.Forwarded | pca/migrations/0014_section_status.py:9-12 | The status becomes 'O' exactly for open sections and 'C' otherwise; nothing else changes |
| SectionStatusMigration.Backwarded | pca/migrations/0014_section_status.py:20 | The section is open exactly when its status is 'O'; nothing else changes |
| SectionStatusMigration.BackwardsUndoesForwards | pca/migrations/0014_section_status.py:6-21 | Reversing the migration after applying it restores every open flag |
| SectionStatusMigration.ForwardsAfterBackwards | pca/migrations/0014_section_status.py:6-21 | Re-applying after reversing keeps 'O' and 'C' and turns 'X' and '' into 'C'; a consistent 'O' or 'C' row is unchanged |
| SectionStatusMigration.Forwards | pca/migrations/0014_section_status.py:6-14 | Every row of the table is migrated forwards, and afterwards every row is consistent |
| SectionStatusMigration.Backwards | pca/migrations/0014_section_status.py:17-21 | Every row of the table is migrated backwards, and afterwards every row is consistent |

## Left out

- `pca/models.py` is not part of this model. The behaviour of `register_for_course`, `Registration.alert` and `Registration.resubscribe` follows the tests that exercise them (`pca/tests.py`) and the views that call them.
- Models.Ledger.Register: the caller resolves the course code to a section (`get_course_and_section`). Phone-number validation and the `Error` answer of a failed write are not modelled. The register page's fourth banner (views.py:60-63) is therefore unreachable in the model.
- Tasks.SendAlertsFor: `reg.alert()` is called without a tag. Its default is defined in `pca/models.py`, which is not part of this model, so the model assumes the field's default `''` (`Unsent`). A registration alerted by this task is therefore marked sent but left tagged `Unsent`.
- Models.Ledger.Alert: the email and text senders are recorded as events. Their I/O and their failures are not modelled.
- The course API (`api.get_course`) and `upsert_course_from_opendata` are one parameter of `Tasks.SendAlertsFor`: no data, or the section's open state after the upsert. Other fields the upsert writes are not modelled.
- Celery queueing, retries and concurrency between tasks are not modelled. A queued task is a `Submission` value, and the webhook's alert is an `AlertCall` value.
- `send_course_alerts`, the task the webhook queues, is not part of this model.
- The `CourseUpdate` records the webhook tests count are not modelled, since the view shown does not create them.
- `load_courses`, `index`, `homepage_closed` and `get_sections` are not modelled: they only load or render data.
- The ledger's order stands for the database's query order. `Tasks.CollectRegistrations` keeps the buckets in the order their keys were first met, as a Python dict does.
- Views.NormalizeCourseId: `\d` is restricted to the ASCII digits, although Python's `\d` also matches other Unicode digits.
- Views.ExtractBasicAuth: Base64 decoding is a parameter. The UTF-8 decoding of the two fields is not modelled: text is a sequence of characters.
- Views.AcceptWebhook: the JSON body is modelled only as far as the view reads it, as `result_data`, a list of string-valued objects. A body that is not an object, or values that are not strings, are not modelled. The webhook user and password settings are strings, so missing credentials never match them.
- Tasks.GatesDifferExactlyOnOpenToOpen: the tests call `tasks.should_send_alert`, which `pca/tasks.py` does not define. The condition they expect is modelled as `ShouldSendAlert` and compared with the task's gate.
- The webhook tests put `course_section`, `status` and `term` at the top level of the body, while the view reads them from `result_data[0]`. The model follows the view.
- SectionStatusMigration.Forwards and SectionStatusMigration.Backwards: one `save()` per row is one array update. The schema change that adds the column is not modelled.

## Findings

| source | as written | input that shows it | evidently intended | confidence | as-written member | corrected member |
|---|---|---|---|---|---|---|
| pca/views.py:140,144,148 | `HttpResponse(message, 400)` passes 400 as the content type, so a body with a missing field is answered with status 200 | An authenticated JSON POST whose body is `{"hello": "world"}` (pca/tests.py:406-417 expects 400) | Status 400 for a missing course_section, status or term | high, not executed | Views.StatusAsWritten, Views.MissingFieldAnsweredOk | Views.ResponseStatus |
| pca/tasks.py:26-31 | `now_open` is read from the section loaded before the upsert, so it always equals `was_open` and `now_open and not was_open` never holds | A closed section whose fresh data reports it open: nothing is alerted | Read the section's state after the upsert, so a closed-to-open change alerts its registrations | medium (the upsert is not shown), not executed | Tasks.SendAlertsForAsWritten, Tasks.StaleReadMissesOpening | Tasks.SendAlertsFor |
