# Event registration intake, modelled in Dafny

This project models the registration intake of a small event follow-up application:

- the `POST` handler. It validates a visitor's registration with a Zod schema, refuses
  an email that is already stored, and inserts the row. Both database calls go through
  a retry wrapper, and the outcome is answered with 201, 400 or 500.
- the `GET` handler. It lists every registration, newest first.
- the registration form's client side: its own copy of the schema, its default values,
  and how its submit handler turns the server's answer into field errors, a reset and
  a toast.

Modules:

- `Js` — the JavaScript values a JSON body carries, an `Option` type, `String.prototype.includes`,
  and the `\d` and `\s` character classes.
- `Phone` — the phone pattern `^[\+]?[1-9][\d\s\-\(\)]{3,15}$`. It has two forms: as a
  language, and as the deterministic check an engine performs. The module proves the two
  agree.
- `Zod` — a small interpreter for the Zod constructs the two schemas use: strings with
  `min`, `max`, `regex` and `email` checks, `boolean`, `literal`, `optional`, `or`
  and `refine`. It follows Zod 3's parse statuses (valid, dirty, aborted), the rule that
  every string check runs, and the rule that a union reports its first dirty branch.
  Each parse result is tied to a declarative `Accepts`.
- `Registration` — `registrationSchema` field by field, the per-field rules it
  amounts to, the object-level issue list, and `parse` as a typed record or a list of
  issues.
- `Retry` — `withRetry` as a recursive function over a scripted operation (`op(k)`
  is the outcome of the k-th call). It records the result, the number of calls and the
  total wait.
- `Ordering`, `Store` — the registrations table, lookup by email, the UNIQUE email
  column, the `value || null` mapping and the newest-first listing.
- `Endpoint` — `POST` and `GET` as functions from the table before a request to the
  response and the table after it.
- `Client` — `formSchema`, `defaultValues` and `onSubmit`, connected end to end with
  `Endpoint`.

The email and URL checks of Zod are parameters: the `Formats` record carries `isEmail`
and `isUrl`. The database's behaviour is also a parameter: the `Db` record says which
attempts fail, with which message, and which id and clock value the database generates.

## Model

| member | source | states |
|---|---|---|
| Phone.Matches | app/api/registration/route.ts:9 | The engine-style check (take a leading `+`, then one digit 1-9, then the rest) accepts a string iff the string splits into an optional `+`, one digit 1-9, and 3 to 15 digits, whitespace, `-`, `(` or `)`, as the pattern reads |
| Phone.MatchLength | app/api/registration/route.ts:9 | Every string the phone pattern accepts has 4 to 17 characters, so `min(4)` never refuses a matching mobile number |
| Phone.EmptyIsNotAPhone | app/api/registration/route.ts:10 | "" does not match the pattern; an optional phone field accepts "" only through its `z.literal("")` alternative |
| Phone.DefaultPrefixIsNotAPhone | app/page.tsx:92-93 | The default "+251" does not match the phone pattern |
| Phone.ExampleNumberMatches | app/page.tsx:40 | A formatted number such as "+251 911-234567" matches; a number starting with "(" does not |
| Zod.StringIssues | app/api/registration/route.ts:6-19 | A string check chain reports nothing iff every check holds. It reports exactly as many issues as checks fail, every failing check's issue is among them, and every issue names a failing check |
| Zod.Parse | app/api/registration/route.ts:5-20 | A parse is valid iff it reports no issue, and iff the value is in the schema's declarative meaning (type, literal, optional, union, refinement) |
| Registration.KeyInjective | app/api/registration/route.ts:5-20 | Distinct fields have distinct JSON property names |
| Registration.ServerShape | app/api/registration/route.ts:5-20 | Each field's schema in `registrationSchema` accepts exactly the field's rule: length bounds, the phone pattern (whose matches already meet `min(4)`), the email format, an optional string or "", a boolean |
| Registration.ObjectIssues | app/api/registration/route.ts:5-20 | The object's issue list names a field iff that field is listed and its value fails its schema, and it names no other field |
| Registration.Validate | app/api/registration/route.ts:55 | The object parse reports no issue iff every field is accepted, and it has an issue at a field iff that field is refused |
| Registration.ValidateMeaning | app/api/registration/route.ts:5-20 | `registrationSchema` refuses a body iff some field breaks its rule, with an issue at exactly the breaking fields |
| Registration.RulesImplyWellTyped | app/api/registration/route.ts:5-20 | A body that passes has the output types: strings, optional strings and a boolean `followUp` |
| Registration.Typed | app/api/registration/route.ts:55 | The typed record carries every field of the body unchanged, and a missing optional key becomes `None` |
| Registration.ParseRegistration | app/api/registration/route.ts:55 | The parse succeeds iff the server rules hold, and the data then reads back as the body; a refusal carries a non-empty issue list whose fields are exactly the failing ones |
| Registration.ShortAddressRejected | app/api/registration/route.ts:13 | A valid body with a 5-character office address is refused, with an issue on `officeAddress` alone |
| Retry.Loop | app/api/registration/route.ts:26-45 | Once the loop runs, it makes between 1 and the remaining number of calls. Each call before the last failed transiently with attempts left; the last did not. The last call's outcome is returned or rethrown, and the waits are those after the retried attempts |
| Retry.WithRetry | app/api/registration/route.ts:23-48 | With `maxRetries >= 1`, `withRetry` makes 1 to `maxRetries` calls and returns or rethrows the last call's outcome, so the final `throw lastError!` is never reached. With fewer, it throws `undefined` without calling |
| Retry.FirstSuccessReturned | app/api/registration/route.ts:26-28 | If every earlier call failed transiently and call j succeeds within the limit, the value of call j is returned after j calls |
| Retry.NonTransientRethrownAtOnce | app/api/registration/route.ts:33-43 | An error naming none of the three connection messages is rethrown after one call, with no wait |
| Retry.LastTransientRethrown | app/api/registration/route.ts:33-43 | When every allowed call fails transiently, the last call's error is rethrown after `maxRetries` calls |
| Retry.WaitsClosedForm | app/api/registration/route.ts:39 | The waits after attempts from..to-1 add up to 1000 times the sum of those attempt numbers |
| Retry.TotalWaitIsLinear | app/api/registration/route.ts:39 | After k retried attempts the total wait is 500·k·(k+1) ms, and each further retry adds 1000·(k+1) ms: the growth is linear |
| Retry.TwoConnectionFailuresThenSuccess | app/api/registration/route.ts:33-40 | "Can't reach database server …", then "Connection terminated", then success: the value comes back after 3 calls and 3000 ms of waiting |
| Ordering.Insert | app/api/registration/route.ts:124-126 | Inserting into a descending sequence keeps it descending, adds exactly the element, and keeps any upper bound the element respects |
| Ordering.SortDescending | app/api/registration/route.ts:124-126 | The sort's result is in descending key order and is a permutation of its input |
| Store.NullIfEmpty | app/api/registration/route.ts:79 | `value \|\| null` gives NULL iff the value is missing or "", and otherwise keeps the value |
| Store.NewRow | app/api/registration/route.ts:72-90 | The created row has the generated id and timestamps and the submitted email |
| Store.FindByEmail | app/api/registration/route.ts:59-61 | The lookup finds a row iff the table holds that email, and the row found is stored and has that email |
| Store.AppendKeepsUnique | scripts/test-db.js:20 | Appending a row whose email is new keeps the UNIQUE email column unique |
| Store.ListingOrder | app/api/registration/route.ts:123-127 | The listing holds exactly the stored rows, newest `createdAt` first |
| Endpoint.RetriedCall | app/api/registration/route.ts:58-62 | A retried database call yields its value iff some attempt within 3 reaches the table after only connection failures; otherwise it throws |
| Endpoint.Post | app/api/registration/route.ts:50-119 | `POST` answers 201, 400 or 500. The table changes only on 201, and then by exactly one appended row that has the returned id and an email not stored before. Email uniqueness is preserved |
| Endpoint.PostOutcomes | app/api/registration/route.ts:50-119 | Each `POST` outcome holds iff its condition holds. Validation failure: a JSON body breaking a rule. Duplicate: a valid body whose email is stored. Created: a valid new email with both calls getting through. 500: an unreadable body or a call that never gets through |
| Endpoint.PostCreatedRow | app/api/registration/route.ts:72-99 | A created row stores every required field verbatim. Optional fields that are "" or missing become NULL. The row carries the generated id and time, and that id is answered |
| Endpoint.PlaceholderWebsiteKept | app/api/registration/route.ts:81 | The placeholder website "https://" is stored as it is, not as NULL |
| Endpoint.SecondPostIsDuplicate | app/api/registration/route.ts:57-69 | Posting a created body again answers "Email already registered" and leaves the table unchanged |
| Endpoint.GetAll | app/api/registration/route.ts:121-137 | `GET` lists rows iff the query gets through, otherwise answers 500; the rows are exactly the table's, newest first |
| Endpoint.CreatedRowIsListed | app/api/registration/route.ts:121-129 | A row created by `POST` comes back from `GET` with every field as stored |
| Client.ClientShape | app/page.tsx:24-81 | Apart from `website`, every field of `formSchema` has exactly the server's schema. Field by field, the form accepts a value iff the server does and, for `website`, the value also passes the form's rule |
| Client.ClientWebsiteMeaning | app/page.tsx:49-55 | The form's website field accepts a missing value, "", "https://" or a URL, and nothing else |
| Client.ClientIsServerPlusWebsite | app/page.tsx:24-81 | The form accepts a record iff the server does and its website passes the form's rule, so the form is never more lenient |
| Client.WebsiteStrictlyStronger | app/page.tsx:49-55 | A non-URL website other than "" and "https://" passes the server's schema but not the form's |
| Client.UntouchedPhoneBlocks | app/page.tsx:92-93 | A phone field left at "+251" blocks the form, and the server would refuse it too |
| Client.DefaultsIssues | app/page.tsx:88-103 | An untouched form has issues exactly on the empty required texts, both phones, and the email when "" is not an email |
| Client.Details | app/api/registration/route.ts:104-111 | The 400 body's `details` has one entry per issue. An entry names a field iff some issue is about that field, and every entry names one of the fourteen fields |
| Client.ToReply | app/api/registration/route.ts:64-117 | A response reaches the form as ok iff it is a 201 or 200. Every failure carries a non-empty `error`, so the form never falls back to "Registration failed". `error` is "Email already registered" iff the email was taken, and only a validation failure carries `details` (the issues) |
| Client.SetErrors | app/page.tsx:130-138 | Applying the details marks a key iff it was marked before or some detail names it. A named key holds the message of the last detail for it; the order is read back to front by `LastMessage` |
| Client.OnSubmit | app/page.tsx:106-155 | A 2xx answer resets the form to its defaults with no field error and the success toast. "Email already registered" marks the email field alone and keeps the values. Any other failure keeps the values and marks exactly the keys the details name, each with its last message. The toast then shows `error`, or "Registration failed". An unreadable response shows the thrown error |
| Client.LastMessageFound | app/page.tsx:130-138 | A key has a last message iff some detail names it |
| Client.RejectionReply | app/api/registration/route.ts:104-111 | A refused body reaches the form as a non-ok reply "Validation failed" that carries the issues as details |
| Client.ServerRejectionMarksFailingFields | app/page.tsx:130-138 | End to end: a body the server refuses comes back with a field error on exactly the fields that break the server's rules, and on nothing else |
| Client.DuplicateReachesEmailField | app/page.tsx:119-123 | End to end: a duplicate email marks the email field alone, with "This email is already registered" |
| Client.CreatedResetsForm | app/page.tsx:143-144 | End to end: a created registration resets the form and clears its errors |

## Left out

- The database is abstract. `Db` is a parameter, and a failed call is assumed to leave
  the table unchanged. Connections, the ORM client and SQL are not modelled.
- Two concurrent `POST`s with the same email are not modelled. The model handles one
  request at a time, so the race between the lookup and the insert does not arise.
- Zod's email and URL checks are not defined. They are the `isEmail` and `isUrl`
  fields of `Formats`, and every property holds for any choice of them.
- Issue message texts are not modelled. They are a `describe` parameter, and the
  form's custom messages are not modelled either. The issue kinds and paths are modelled.
- Lengths are counted in characters of `seq<char>`. JavaScript counts UTF-16 code
  units, so the two differ only for characters outside the Basic Multilingual Plane.
- The Zod major version cannot be seen in the source. Zod 3's parse rules are assumed:
  a dirty union branch wins over an aborted one, and a refinement is skipped after a
  type error.
- The following are not modelled: `console.log` and `console.error`, the sleeping
  itself (only the wait length is recorded), `fetch`, and the rendering of toasts.
- Bodies that parse as JSON but are not objects are not modelled. `Input` is always
  an object, and a body that is not JSON at all is `None`.
- Keys other than the fourteen fields are not modelled; Zod strips them.
- A `details` entry with an empty `path` is not modelled. Every server issue names a field.
- Rows with equal `createdAt` come out of `GET` in one fixed order, but the database
  promises no order among them. `updatedAt` is only set on insert; nothing here updates a row.
- The admin page with its client-side filters, the header, the theme toggle and the
  phone-input component are not modelled.
- The retry wait is modelled as written, `1000 * attempt` ms (route.ts line 39).
  That grows linearly, although the comment on the same line calls it exponential
  backoff.
- The server's website check is modelled as written (route.ts line 12): the server
  accepts any website string. Only the form (page.tsx line 51) asks for "", the
  placeholder "https://" or a URL.
- `defaultValues` is the constant `Client.Defaults`. A constant carries no contract;
  what the defaults amount to is stated by `Client.DefaultsIssues` and
  `Client.UntouchedPhoneBlocks`.
