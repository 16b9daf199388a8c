/**
 * The Booking document: an event reference and an email address, normalised by
 * the email setters, validated by the schema, and checked against the event
 * store by a pre-save hook when the reference is new or changed.
 */
module BookingModel {
  import opened Wrappers
  import opened AsciiText
  import opened EmailPattern

  /** An event's identifier; the store's own representation is irrelevant here. */
  datatype ObjectId = ObjectId(value: nat)

  datatype BookingPath = EventIdPath | EmailPath

  datatype Booking = Booking(eventId: Option<ObjectId>, email: Option<string>)

  datatype BookingDoc = BookingDoc(booking: Booking, modified: set<BookingPath>, isNew: bool)

  /** The Event collection as the hook sees it: the ids it holds, and whether a query can reach it. */
  datatype EventStore = EventStore(ids: set<ObjectId>, reachable: bool)

  /** What `Event.findById` yields: a document, `null`, or a thrown error. */
  datatype Lookup = Found | NotFound | LookupFailed

  datatype BookingError =
    | Invalid(errors: map<BookingPath, string>)  // schema validation messages per path
    | EventMissing                               // the hook found no such event
    | LookupError                                // the hook's query threw

  const EventIdRequired: string := "Event ID is required"
  const EmailRequired: string := "Email is required"
  const EmailInvalid: string := "Please provide a valid email address"
  const MissingEventMessage: string := "Referenced event does not exist"
  const LookupErrorMessage: string := "Invalid event ID or database error during validation"

  /** The message of an error raised by the hook through `next(err)`. */
  function HookMessage(err: BookingError): string
    requires !err.Invalid?
  {
    if err.EventMissing? then MissingEventMessage else LookupErrorMessage
  }

  /** The two hook rejections carry different messages, so a caller can tell them apart. */
  lemma HookMessagesDistinct()
    ensures HookMessage(EventMissing) != HookMessage(LookupError)
  {
    assert |MissingEventMessage| != |LookupErrorMessage|;
  }

  function FindById(store: EventStore, id: ObjectId): Lookup
  {
    if !store.reachable then LookupFailed
    else if id in store.ids then Found
    else NotFound
  }

  // ------------------------------------------------------------------- email

  /** The email path's setters: `trim` and `lowercase`. */
  function NormalizeEmail(raw: string): string
  {
    Lower(Trim(raw))
  }

  /**
   * The stored address has no upper-case letter and no surrounding whitespace,
   * normalising it again changes nothing, and the order of the two setters does
   * not matter.
   */
  lemma NormalizeEmailShape(raw: string)
    ensures var s := NormalizeEmail(raw);
      NoUpper(s) && NoEdgeSpace(s) && NormalizeEmail(s) == s && s == Trim(Lower(raw))
  {
    var t := Trim(raw);
    var lo, hi := TrimIsSlice(raw);
    LowerShape(t);
    LowerTrimCommute(raw);
    var s := Lower(t);
    TrimNoEdge(s);
    LowerNoUpper(s);
  }

  /** The raw value `"  USER@Example.com "` is stored as `"user@example.com"`. */
  lemma NormalizeEmailExample()
    ensures NormalizeEmail("  USER@Example.com ") == "user@example.com"
  {
  }

  /** `new Booking(input)` and assignment store the setters' results. */
  function ApplySetters(input: Booking): Booking
  {
    input.(email := if input.email.Some? then Some(NormalizeEmail(input.email.value)) else None)
  }

  function Defined(input: Booking): set<BookingPath>
  {
    (if input.eventId.Some? then {EventIdPath} else {}) + (if input.email.Some? then {EmailPath} else {})
  }

  // -------------------------------------------------------------- validation

  /**
   * Schema validation messages per failing path. `match` lets an empty string
   * through, so an empty or unset email gets only the `required` message.
   */
  function Violations(b: Booking): map<BookingPath, string>
  {
    var idErrors := if b.eventId.None? then map[EventIdPath := EventIdRequired] else map[];
    if !Present(b.email) then idErrors[EmailPath := EmailRequired]
    else if !MatchesEmail(b.email.value) then idErrors[EmailPath := EmailInvalid]
    else idErrors
  }

  /**
   * Validation passes exactly when the event reference is set and the email is a
   * non-empty string the pattern accepts; each failing path gets its own message.
   */
  lemma ValidationExact(b: Booking)
    ensures Violations(b) == map[] <==>
      b.eventId.Some? && b.email.Some? && b.email.value != [] && MatchesEmail(b.email.value)
    ensures EventIdPath in Violations(b) <==> b.eventId.None?
    ensures EventIdPath in Violations(b) ==> Violations(b)[EventIdPath] == EventIdRequired
    ensures (b.email.None? || b.email == Some("")) <==>
      (EmailPath in Violations(b) && Violations(b)[EmailPath] == EmailRequired)
    ensures (b.email.Some? && b.email.value != [] && !MatchesEmail(b.email.value)) <==>
      (EmailPath in Violations(b) && Violations(b)[EmailPath] == EmailInvalid)
  {
    assert EmailRequired != EmailInvalid by {
      assert |EmailRequired| != |EmailInvalid|;
    }
    if !Present(b.email) || !MatchesEmail(b.email.value) {
      assert EmailPath in Violations(b);
    } else if b.eventId.None? {
      assert EventIdPath in Violations(b);
    }
  }

  /** A stored address that passes validation has the shape the pattern promises. */
  lemma ValidEmailShape(input: Booking)
    requires input.email.Some? && EmailPath !in Violations(ApplySetters(input))
    ensures var s := ApplySetters(input).email.value;
      NoUpper(s) && NoEdgeSpace(s) && |s| > 0 && IsWord(s[0])
      && (exists i :: 0 <= i < |s| && s[i] == '@' && forall k :: 0 <= k < |s| && s[k] == '@' ==> k == i)
      && (exists j :: 0 <= j < |s| && s[j] == '.' && 2 <= |s| - j - 1 <= 3 && Words(s[j + 1..]))
  {
    var s := ApplySetters(input).email.value;
    NormalizeEmailShape(input.email.value);
    AcceptedEmailParts(s);
  }

  /** `"not-an-email"` is stored as given and rejected with the pattern's message. */
  lemma NotAnEmailRejected(input: Booking)
    requires input.email == Some("not-an-email")
    ensures EmailPath in Violations(ApplySetters(input))
    ensures Violations(ApplySetters(input))[EmailPath] == EmailInvalid
  {
    RejectedNoAt();
  }

  // ----------------------------------------------------------- pre-save hook

  /** The hook's lookup runs only for a new booking or a changed event reference. */
  function PreSaveHook(b: Booking, m: set<BookingPath>, isNew: bool, store: EventStore): Outcome<BookingError>
    requires EventIdPath in m || isNew ==> b.eventId.Some?
  {
    if EventIdPath in m || isNew then
      match FindById(store, b.eventId.value)
      case Found => Pass
      case NotFound => Fail(EventMissing)
      case LookupFailed => Fail(LookupError)
    else Pass
  }

  /**
   * The hook passes when the reference is untouched; otherwise it passes exactly
   * when the store holds the event, and rejects in two distinct ways.
   */
  lemma HookExact(b: Booking, m: set<BookingPath>, isNew: bool, store: EventStore)
    requires EventIdPath in m || isNew ==> b.eventId.Some?
    ensures !(EventIdPath in m || isNew) ==> PreSaveHook(b, m, isNew, store) == Pass
    ensures EventIdPath in m || isNew ==>
      (PreSaveHook(b, m, isNew, store) == Pass <==> store.reachable && b.eventId.value in store.ids)
      && (PreSaveHook(b, m, isNew, store) == Fail(EventMissing) <==>
            store.reachable && b.eventId.value !in store.ids)
      && (PreSaveHook(b, m, isNew, store) == Fail(LookupError) <==> !store.reachable)
  {
  }

  // -------------------------------------------------------------------- save

  datatype BookingSave = BookingSave(doc: BookingDoc, outcome: Outcome<BookingError>, persisted: Option<Booking>)

  /** `save()`: validation, then the hook; only a save passing both persists. */
  function SaveBooking(d: BookingDoc, store: EventStore): BookingSave
  {
    var v := Violations(d.booking);
    if v != map[] then BookingSave(d, Fail(Invalid(v)), None)
    else
      ValidationExact(d.booking);
      var h := PreSaveHook(d.booking, d.modified, d.isNew, store);
      if h.Fail? then BookingSave(d, h, None)
      else BookingSave(BookingDoc(d.booking, {}, false), Pass, Some(d.booking))
  }

  /**
   * A booking is persisted exactly when it validates and, if it is new or its
   * reference changed, the store holds the referenced event; a missing reference
   * is always rejected. Nothing else is consulted, so the outcome never depends on
   * other bookings of the same event or address.
   */
  lemma SaveExact(d: BookingDoc, store: EventStore)
    ensures var r := SaveBooking(d, store);
      (r.outcome == Pass <==>
        Violations(d.booking) == map[]
        && (EventIdPath in d.modified || d.isNew ==>
              store.reachable && d.booking.eventId.Some? && d.booking.eventId.value in store.ids))
      && (r.persisted.Some? <==> r.outcome == Pass)
      && (r.outcome == Pass ==> r.persisted == Some(d.booking) && r.doc == BookingDoc(d.booking, {}, false))
      && (r.outcome.Fail? ==> r.doc == d)
      && (d.booking.eventId.None? ==>
            (r.outcome.Fail? && r.outcome.error.Invalid?
             && r.outcome.error.errors[EventIdPath] == EventIdRequired))
  {
    ValidationExact(d.booking);
    if Violations(d.booking) == map[] {
      HookExact(d.booking, d.modified, d.isNew, store);
    }
  }

  /** After a successful save the next save skips the lookup and passes even if the store is down. */
  lemma ResaveSkipsLookup(d: BookingDoc, store: EventStore, later: EventStore)
    requires SaveBooking(d, store).outcome == Pass
    ensures var r1 := SaveBooking(d, store);
      SaveBooking(r1.doc, later) == BookingSave(r1.doc, Pass, Some(d.booking))
  {
  }

  /** The bookings collection after a save: a persisted booking is added, nothing else changes. */
  function SaveInto(bookings: multiset<Booking>, d: BookingDoc, store: EventStore): multiset<Booking>
  {
    var r := SaveBooking(d, store);
    if r.persisted.Some? then bookings + multiset{r.persisted.value} else bookings
  }

  /**
   * No uniqueness rule on the event and address: a booking equal to ones already
   * stored is saved like any other, and the collection then holds one more copy.
   */
  lemma DuplicateBookingAccepted(bookings: multiset<Booking>, d: BookingDoc, store: EventStore)
    requires d.booking in bookings
    requires SaveBooking(d, store).outcome == Pass
    ensures SaveInto(bookings, d, store)[d.booking] == bookings[d.booking] + 1
  {
    SaveExact(d, store);
  }

  // ---------------------------------------------------------------- document

  /** A Booking document, updated in place by assignments and by `save()`. */
  class BookingDocument {
    var booking: Booking
    var modified: set<BookingPath>
    var isNew: bool

    function State(): BookingDoc
      reads this
    {
      BookingDoc(booking, modified, isNew)
    }

    constructor (input: Booking)
      ensures State() == BookingDoc(ApplySetters(input), Defined(input), true)
    {
      booking := ApplySetters(input);
      modified := Defined(input);
      isNew := true;
    }

    method SetEventId(id: Option<ObjectId>)
      modifies this
      ensures booking == old(booking).(eventId := id) && isNew == old(isNew)
      ensures modified == if id == old(booking.eventId) then old(modified) else old(modified) + {EventIdPath}
    {
      if id != booking.eventId {
        booking := booking.(eventId := id);
        modified := modified + {EventIdPath};
      }
    }

    method SetEmail(raw: Option<string>)
      modifies this
      ensures var v := if raw.Some? then Some(NormalizeEmail(raw.value)) else None;
        booking == old(booking).(email := v) && isNew == old(isNew)
        && modified == if v == old(booking.email) then old(modified) else old(modified) + {EmailPath}
    {
      var v := if raw.Some? then Some(NormalizeEmail(raw.value)) else None;
      if v != booking.email {
        booking := booking.(email := v);
        modified := modified + {EmailPath};
      }
    }

    /** The hook with its `try`/`catch` around the lookup. */
    method RunHook(store: EventStore) returns (outcome: Outcome<BookingError>)
      requires EventIdPath in modified || isNew ==> booking.eventId.Some?
      ensures outcome == PreSaveHook(booking, modified, isNew, store)
    {
      if EventIdPath in modified || isNew {
        var found := FindById(store, booking.eventId.value);
        if found == LookupFailed {
          return Fail(LookupError);
        }
        if found == NotFound {
          return Fail(EventMissing);
        }
      }
      return Pass;
    }

    method Save(store: EventStore) returns (outcome: Outcome<BookingError>, persisted: Option<Booking>)
      modifies this
      ensures SaveBooking(old(State()), store) == BookingSave(State(), outcome, persisted)
    {
      var v := Violations(booking);
      if v != map[] {
        return Fail(Invalid(v)), None;
      }
      ValidationExact(booking);
      outcome := RunHook(store);
      if outcome.Fail? {
        return outcome, None;
      }
      persisted := Some(booking);
      modified := {};
      isNew := false;
    }
  }
}
