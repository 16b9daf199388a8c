# Event booking data layer, modelled in Dafny

This project models the data layer of a small event-listing web application. The layer has three parts:

- **The Event schema and its pre-save hook** (`src/database/event.model.ts`). An event has required fields and a
  title of at least three characters after trimming. Its `mode` is one of `online`, `offline` and `hybrid`, and
  its agenda and tags are non-empty. When a save runs, the hook does three things. If the title changed, it
  derives a URL slug from it. If the date changed, it cuts the date to the day part of its ISO form. If the time
  changed, it checks it against a 24-hour pattern.
- **The Booking schema and its pre-save hook** (`src/database/booking.model.ts`). A booking holds an event
  reference and an email address. The address is trimmed, lower-cased and matched against a pattern. When the
  booking is new or its reference changed, the hook looks the event up and rejects the save if the event is
  missing or the lookup fails.
- **The connection cache** (`src/lib/mongodb.ts`). A process-wide `{conn, promise}` record is kept on the global
  object, so a reloaded module finds it again. `connectDB` returns the cached connection, awaits the pending
  attempt, or starts the one attempt.

The modules are:

- `Wrappers`: `Option` and `Outcome`.
- `AsciiText`: ASCII character classes, `toLowerCase` and `trim`.
- `Slug`: the five-step slug pipeline.
- `ClockTime`: the time pattern.
- `EmailPattern`: the email pattern, group by group.
- `EventModel`: the Event schema, hook, save and the `EventDocument` class.
- `BookingModel`: the Booking schema, hook, save and the `BookingDocument` class.
- `Mongo`: the `ConnectionCache` and `Global` classes.

Each document class updates its fields in place. Each of its methods is tied to a pure function of the old
state, and the properties are proved about those functions.

Two inputs are parameters of the model rather than computed by it:

- **Date parsing.** `new Date(d)` followed by `toISOString()` is an arbitrary function
  `parse: string -> Option<string>`. `None` means an invalid date.
- **The database's answers.** Whether the n-th connection attempt resolves, and to which connection, is an
  arbitrary function `network: nat -> Settlement`. Whether the Event lookup finds the id, misses it or throws is
  given by an `EventStore` value.

Points where the source's behaviour is easy to misread:

- **Time pattern.** The pattern `^([0-1]?[0-9]|2[0-3]):[0-5][0-9]$` makes the first hour digit optional, so
  `9:00` is accepted alongside `09:00` (src/database/event.model.ts:130).
- **Time step does not rewrite.** The time step only checks the value; it never rewrites it, although the comment
  above it says it normalises (src/database/event.model.ts:128-134).
- **Connection success.** On success the pending promise is kept; it is not cleared. Afterwards both `conn` and
  `promise` are set (src/lib/mongodb.ts:54-56).
- **Validation order.** Schema validation runs before the user pre-save hooks. So a document with a missing
  field is rejected before any slug, date or time step executes (src/database/event.model.ts:108 registers the hook as
  `pre("save")`, which Mongoose runs after validation).

## Model

| member | source | states |
|---|---|---|
| AsciiText.LowerTrimCommute | src/database/booking.model.ts:22-23 | lower-casing and trimming commute, so the order in which the two email setters run does not matter |
| AsciiText.TrimIdempotent | src/database/event.model.ts:28 | trimming an already trimmed value changes nothing |
| Slug.StripSpecialKeeps | src/database/event.model.ts:114 | removing `[^\w\s-]` only deletes: every remaining character comes from the input and is a word character, whitespace or `-` |
| Slug.StripSpecialCounts | src/database/event.model.ts:114 | removing `[^\w\s-]` deletes exactly the characters outside `[\w\s-]`: each word character, whitespace character and `-` occurs as often as in the input, every other character not at all |
| Slug.DashSpacesChars | src/database/event.model.ts:115 | after replacing whitespace runs no whitespace is left, and every other character comes from the input |
| Slug.DashSpacesCounts | src/database/event.model.ts:115 | replacing whitespace runs touches nothing else: every character other than whitespace and `-` occurs exactly as often as in the input, and the result is empty only for an empty input |
| Slug.CollapseDashesSingle | src/database/event.model.ts:116 | after collapsing hyphen runs no two consecutive hyphens remain |
| Slug.CollapseDashesCounts | src/database/event.model.ts:116 | collapsing removes only hyphens: every other character occurs exactly as often as in the input, and the result is empty only for an empty input |
| Slug.SquashExact | src/database/event.model.ts:115-116 | the two replacements together equal an independent one-pass definition: each maximal run of whitespace and hyphens, however mixed, becomes one `-` and every other character stays in place |
| Slug.SquashRun | src/database/event.model.ts:115-116 | text, one run of whitespace and hyphens, text: the run becomes a single `-` and both texts are kept |
| Slug.SlugSquashes | src/database/event.model.ts:111-116 | the slug is the lower-cased, trimmed title with the characters outside `[\w\s-]` deleted and each run of whitespace and hyphens turned into one `-` |
| Slug.SlugShape | src/database/event.model.ts:111-116 | every derived slug consists only of lower-case ASCII letters, digits, `_` and `-`, has no whitespace and never two consecutive hyphens |
| Slug.SlugFixpoint | src/database/event.model.ts:111-116 | a string is left unchanged by the pipeline exactly when it is in slug shape (both directions) |
| Slug.SlugIdempotent | src/database/event.model.ts:111-116 | deriving a slug from a derived slug gives the same slug |
| Slug.SlugIsLowercase | src/database/event.model.ts:31-36 | the slug path's `lowercase` setter leaves a derived slug unchanged |
| Slug.SlugKeepsWords | src/database/event.model.ts:111-116 | only non-word characters are removed: the word characters of the slug are exactly those of the lower-cased title, in order |
| Slug.SlugOfSingleSpaced | src/database/event.model.ts:111-116 | a title of word characters separated by single spaces gives its lower-cased form with each space turned into `-` |
| Slug.SlugExampleReactSummit | src/database/event.model.ts:111-116 | `"React Summit 2024"` gives `"react-summit-2024"` |
| Slug.SlugExampleMixedRun | src/database/event.model.ts:115-116 | `"Deep - Dive"` gives `"deep-dive"`: a hyphen between spaces merges with them |
| Slug.SlugExampleTrailingHyphen | src/database/event.model.ts:113-115 | `"Hi !"` gives `"hi-"`: trimming precedes stripping, so a slug can end with `-` |
| ClockTime.TimeCheckExact | src/database/event.model.ts:130-131 | the time pattern accepts exactly the readings `H:MM` / `HH:MM` of an hour 0-23 (one digit below 10, or two digits) and a minute 00-59 (both directions) |
| ClockTime.ClockTextAccepted | src/database/event.model.ts:130 | every hour below 24 and minute below 60, written padded or (below 10) unpadded, is accepted |
| ClockTime.TimeCheckExamples | src/database/event.model.ts:130 | `9:00`, `09:00`, `23:59`, `00:00` accepted; `24:00`, `9:60`, `09:00 AM`, `900` rejected |
| EmailPattern.DottedExact | src/database/booking.model.ts:25 | `\w+([.-]?\w+)*` accepts exactly the non-empty strings of word characters and `.`/`-` that start and end with a word character and never have two separators in a row |
| EmailPattern.EmailExact | src/database/booking.model.ts:25 | the whole pattern accepts exactly `local@domain.tld` with local part and domain in that dotted shape and a last segment of 2 or 3 word characters (both directions) |
| EmailPattern.AcceptedEmailParts | src/database/booking.model.ts:25 | an accepted address has exactly one `@`, starts with a word character and ends with `.` followed by 2 or 3 word characters |
| EmailPattern.AcceptedLocalPart | src/database/booking.model.ts:25 | in an accepted address the part before the `@` is in dotted shape |
| EmailPattern.DoubleSepRejected | src/database/booking.model.ts:25 | two separators in a row before the `@` make an address unacceptable |
| EmailPattern.AcceptedPlain | src/database/booking.model.ts:25 | `user@example.com` is accepted |
| EmailPattern.AcceptedDotted | src/database/booking.model.ts:25 | `first.last-x@mail.co.uk` is accepted |
| EmailPattern.RejectedNoAt | src/database/booking.model.ts:25 | `not-an-email` is rejected |
| EmailPattern.RejectedDoubleDot | src/database/booking.model.ts:25 | `a..b@example.com` is rejected |
| EmailPattern.RejectedShortTld | src/database/booking.model.ts:25 | `user@example.c` is rejected |
| EventModel.HookMessagesDistinct | src/database/event.model.ts:123-132 | the date and time rejections of the hook carry different messages |
| EventModel.ValidationExact | src/database/event.model.ts:25-102 | schema validation reports no failing path exactly when every field constraint holds (title of 3+ characters, each required string non-empty, mode one of the three names, agenda and tags non-empty) |
| EventModel.MissingRejected | src/database/event.model.ts:25-94 | an unset or empty string field is a failing path |
| EventModel.BlankRejected | src/database/event.model.ts:25-94 | on a trimmed path a value made only of whitespace is stored empty and fails `required` |
| EventModel.ShortTitleRejected | src/database/event.model.ts:25-30 | a title whose trimmed form is shorter than 3 characters fails validation |
| EventModel.PaddedShortTitleRejected | src/database/event.model.ts:25-30 | `"  ab  "` fails the length check although it has six characters |
| EventModel.ModeRejected | src/database/event.model.ts:69-76 | a mode outside online/offline/hybrid fails validation |
| EventModel.PaddedModeRejected | src/database/event.model.ts:69-76 | mode has no trim setter, so `" online"` fails validation |
| EventModel.EmptyListRejected | src/database/event.model.ts:82-102 | an unset or empty agenda or tag list fails validation |
| EventModel.BeforeTIsPrefix | src/database/event.model.ts:125 | `split("T")[0]` is the longest prefix without a `T` |
| EventModel.HookGating | src/database/event.model.ts:108-137 | the hook writes only the slug and the date, the slug only when the title is modified and the date only when the date is modified |
| EventModel.HookUnmodifiedNoop | src/database/event.model.ts:110-134 | with title, date and time all unmodified the hook passes and leaves the document as it was |
| EventModel.HookSteps | src/database/event.model.ts:108-137 | steps run title, date, time: the slug is derived from a modified title even when a later step fails; an unparsable modified date aborts first and is left as it was; a bad modified time aborts next; otherwise the hook passes with the date cut at its `T`; the time and title are never rewritten |
| EventModel.SaveAllOrNothing | src/database/event.model.ts:108-137 | a record is persisted exactly when the save passes; a failed save keeps the modified paths; a validation failure reports its failing paths and changes nothing |
| EventModel.SavePersisted | src/database/event.model.ts:108-137 | a passing save persists the validated record with at most slug and date rewritten; the result conforms except possibly for an emptied date; the document is clean and no longer new |
| EventModel.SaveUnmodified | src/database/event.model.ts:110-134 | saving a valid document with nothing modified persists it unchanged |
| EventModel.SaveTwice | src/database/event.model.ts:110-134 | a second save right after a successful one leaves the document as it is and, unless the first save emptied the date, passes and persists the same record |
| EventModel.NewDocTracked | src/database/event.model.ts:110-129 | a new document is tracked: every field it sets is marked modified, so each derived field awaits its hook step |
| EventModel.AssignTracked | src/database/event.model.ts:110-129 | assigning a string path preserves tracking: a changed source field is marked modified |
| EventModel.AssignListTracked | src/database/event.model.ts:82-102 | assigning the agenda or the tags preserves tracking |
| EventModel.SaveTracked | src/database/event.model.ts:108-137 | save preserves tracking, and every persisted record is consistent: slug derived from title, date without `T`, time in 24-hour form |
| EventModel.EventDocument.constructor | src/database/event.model.ts:23-105 | a new document stores the setters' values, marks every given path modified and is tracked |
| EventModel.EventDocument.SetText | src/database/event.model.ts:25-94 | assignment stores the setter's value and marks the path modified only when the value changes |
| EventModel.EventDocument.SetList | src/database/event.model.ts:82-102 | assignment of an array path marks it modified only when it changes |
| EventModel.EventDocument.RunHook | src/database/event.model.ts:108-137 | the step-by-step hook with early returns has exactly the effect of `PreSaveHook` |
| EventModel.EventDocument.Save | src/database/event.model.ts:108-137 | the in-place save has exactly the effect of `SaveEvent` on the document and preserves tracking |
| BookingModel.HookMessagesDistinct | src/database/booking.model.ts:42-46 | the not-found and lookup-error rejections carry different messages |
| BookingModel.NormalizeEmailShape | src/database/booking.model.ts:22-23 | the stored address has no upper-case letter and no surrounding whitespace, is unchanged by normalising again, and does not depend on setter order |
| BookingModel.NormalizeEmailExample | src/database/booking.model.ts:22-23 | `"  USER@Example.com "` is stored as `"user@example.com"` |
| BookingModel.ValidationExact | src/database/booking.model.ts:14-28 | validation passes exactly when the event reference is set and the email is non-empty and accepted; a missing reference, a missing or empty email and a non-matching email each get their own message |
| BookingModel.ValidEmailShape | src/database/booking.model.ts:19-28 | a stored address that passes validation is lower-case and trimmed, has exactly one `@`, starts with a word character and ends with a 2-3 character final segment |
| BookingModel.NotAnEmailRejected | src/database/booking.model.ts:24-27 | `"not-an-email"` is rejected with "Please provide a valid email address" |
| BookingModel.HookExact | src/database/booking.model.ts:37-52 | without a new booking or a changed reference the hook passes without a lookup; otherwise it passes exactly when the store holds the event, rejects with "Referenced event does not exist" exactly when it is absent, and with "Invalid event ID or database error during validation" exactly when the lookup fails |
| BookingModel.SaveExact | src/database/booking.model.ts:14-52 | a booking is persisted exactly when it validates and, if checked, its event exists; a missing reference is always rejected; a failed save changes nothing |
| BookingModel.ResaveSkipsLookup | src/database/booking.model.ts:38 | after a successful save the next save passes without consulting the store |
| BookingModel.DuplicateBookingAccepted | src/database/booking.model.ts:12-34 | there is no uniqueness rule: a booking equal to one already stored is saved like any other |
| BookingModel.BookingDocument.constructor | src/database/booking.model.ts:12-31 | a new booking stores the normalised email and marks every given path modified |
| BookingModel.BookingDocument.SetEventId | src/database/booking.model.ts:14-18 | assigning the reference marks it modified only when it changes |
| BookingModel.BookingDocument.SetEmail | src/database/booking.model.ts:19-28 | assigning the email stores its normalised form and marks it modified only when that changes |
| BookingModel.BookingDocument.RunHook | src/database/booking.model.ts:37-52 | the hook with its try/catch has exactly the outcome of `PreSaveHook` |
| BookingModel.BookingDocument.Save | src/database/booking.model.ts:37-52 | the in-place save has exactly the effect of `SaveBooking` |
| Mongo.ConnectionCache.constructor | src/lib/mongodb.ts:15 | the record starts as `{conn: null, promise: null}` |
| Mongo.ConnectionCache.EmptyValid | src/lib/mongodb.ts:15 | the empty record meets the cache invariant |
| Mongo.ConnectionCache.BeginConnect | src/lib/mongodb.ts:26-51 | a cached connection is returned without reading the URI; a pending attempt is joined; with neither, an unset or empty URI fails leaving the state unchanged; otherwise one new attempt becomes pending; the invariant (a cached connection always has its promise) is kept |
| Mongo.ConnectionCache.CompleteConnect | src/lib/mongodb.ts:33-61 | after the await, success stores the connection and keeps the promise; the starter's failure clears the promise with `conn` still null; a joiner's failure changes nothing |
| Mongo.ConnectionCache.ConnectDB | src/lib/mongodb.ts:26-62 | an uninterleaved call returns the cached connection, or fails on a missing URI with its message, changing nothing, or makes exactly one attempt whose success is cached and whose failure leaves both fields null; with an attempt pending it awaits that attempt, returning and caching its connection on success and failing with `conn` still null on rejection |
| Mongo.OverlappingCallers | src/lib/mongodb.ts:28-56 | two calls overlapping at the await share one attempt and obtain the same connection, which a third call gets from the cache |
| Mongo.StaleJoinerFails | src/lib/mongodb.ts:33-60 | a caller that joined an attempt which then failed fails too when it completes after a fresh attempt has started, and leaves that attempt pending for its starter, who obtains the connection |
| Mongo.RetryAfterFailure | src/lib/mongodb.ts:54-61 | after a failed attempt the next call starts a fresh attempt and can succeed |
| Mongo.Global.constructor | src/lib/mongodb.ts:10-12 | the global starts without a cache |
| Mongo.LoadModule | src/lib/mongodb.ts:14-19 | module initialisation reuses the record on the global, or creates an empty one and stores it there |
| Mongo.ReloadKeepsConnection | src/lib/mongodb.ts:9-19 | a reloaded module gets the same record and its cached connection, with no second attempt |

## Left out

- Date parsing: `new Date(...)`, `getTime()` and `toISOString()` are the parameter `parse`. Calendar validity, time
  zones and the `YYYY-MM-DD` form of the result are not modelled.
- EventModel.SavePersisted: allows a date that the normalisation emptied. This happens only if `parse` returns a
  string starting with `T`, which the abstraction does not exclude but `toISOString` never does.
- EventModel.SaveTwice: the re-save fails validation on `date` if the first save emptied it. This is the same
  `parse` gap as for SavePersisted.
- Unicode: `toLowerCase`, `trim`, `\s` and `\w` are modelled on ASCII only. Other characters are never
  whitespace or word characters, and they are not case-mapped.
- Store-enforced constraints: the unique sparse index on `slug`, the compound index on `(slug, createdAt)`, the
  index on `eventId` and duplicate-key errors are the database's concern.
- Mongoose plumbing: `mongoose.connect` and its pool and timeout options, model registration through
  `mongoose.models.X ||`, the `timestamps` fields, and casting of non-string values to the schema types.
- Event validation messages: a failed Event validation reports the set of failing paths, not the individual
  messages. The Booking model does carry its messages.
- Validation scope: the model validates every path on every save. The path selection Mongoose performs
  (modified, required and initialised paths) is not modelled.
- Assignment to `slug`: the model offers no direct assignment to the slug. A slug assigned by hand would break
  the slug-follows-title invariant, which is stated only for slugs derived by the hook.
- Event lookup: `Event.findById` is given by the `EventStore` value. Cast errors for malformed id strings are not
  separate: a reference is always an `ObjectId`, and every thrown error takes the second rejection path.
- Concurrency: the interleaving of concurrent `connectDB` callers is reduced to the split at the single `await`
  (`BeginConnect` / `CompleteConnect`). Each caller's continuation runs atomically.
- Connection cache bookkeeping: the source record has only `conn` and `promise`. The model adds the counter
  `started`, which numbers each `mongoose.connect` promise and so stands in for the promise's identity, and the
  ghost `history` of attempts. Together they let at-most-one-attempt be stated.
- `src/lib/constants.ts` (seed data) and `src/app/page.tsx` (presentation) are not part of this model.
