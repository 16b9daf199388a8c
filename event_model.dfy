/**
 * The Event document: its field constraints, the setters applied on assignment,
 * the pre-save hook that derives the slug and normalises the date and time, and
 * a save that runs validation before the hook.
 */
module EventModel {
  import opened Wrappers
  import opened AsciiText
  import opened Slug
  import opened ClockTime

  /** The validated paths of an Event (the slug has no validator and is derived). */
  datatype Path = Title | Description | Overview | Image | Venue | Location | Date | Time
                | Mode | Audience | Agenda | Organizer | Tags

  /**
   * The fields of an Event as held in memory. `None` is an unset path; an unset
   * array path stands for the empty array Mongoose supplies by default.
   */
  datatype Event = Event(
    title: Option<string>, slug: Option<string>, description: Option<string>,
    overview: Option<string>, image: Option<string>, venue: Option<string>,
    location: Option<string>, date: Option<string>, time: Option<string>,
    mode: Option<string>, audience: Option<string>, agenda: Option<seq<string>>,
    organizer: Option<string>, tags: Option<seq<string>>)

  /** A document: its fields, the paths marked modified, and whether it was ever saved. */
  datatype Doc = Doc(event: Event, modified: set<Path>, isNew: bool)

  datatype EventError =
    | Invalid(paths: set<Path>)  // schema validation failed on these paths
    | BadDate                    // the pre-save hook could not parse the date
    | BadTime                    // the pre-save hook rejected the time

  const DateMessage: string := "Invalid date format. Use YYYY-MM-DD or ISO format."
  const TimeMessage: string := "Invalid time format. Use HH:MM format (24-hour)."
  const MinTitleLength: nat := 3
  const ModeNames: seq<string> := ["online", "offline", "hybrid"]

  const AllPaths: set<Path> :=
    {Title, Description, Overview, Image, Venue, Location, Date, Time, Mode, Audience, Agenda, Organizer, Tags}

  /** The message of an error raised by the hook through `next(err)`. */
  function HookMessage(err: EventError): string
    requires !err.Invalid?
  {
    if err.BadDate? then DateMessage else TimeMessage
  }

  /** The date and time rejections carry different messages, so a caller can tell them apart. */
  lemma HookMessagesDistinct()
    ensures HookMessage(BadDate) != HookMessage(BadTime)
  {
    assert DateMessage[8] != TimeMessage[8];
  }

  predicate IsList(p: Path) { p == Agenda || p == Tags }

  /** Paths declared with `trim: true`. */
  predicate Trimmed(p: Path)
  {
    p == Title || p == Description || p == Overview || p == Venue
    || p == Location || p == Audience || p == Organizer
  }

  function Text(e: Event, p: Path): Option<string>
    requires !IsList(p)
  {
    match p
    case Title => e.title
    case Description => e.description
    case Overview => e.overview
    case Image => e.image
    case Venue => e.venue
    case Location => e.location
    case Date => e.date
    case Time => e.time
    case Mode => e.mode
    case Audience => e.audience
    case Organizer => e.organizer
  }

  function List(e: Event, p: Path): Option<seq<string>>
    requires IsList(p)
  {
    if p == Agenda then e.agenda else e.tags
  }

  function WithText(e: Event, p: Path, v: Option<string>): Event
    requires !IsList(p)
  {
    match p
    case Title => e.(title := v)
    case Description => e.(description := v)
    case Overview => e.(overview := v)
    case Image => e.(image := v)
    case Venue => e.(venue := v)
    case Location => e.(location := v)
    case Date => e.(date := v)
    case Time => e.(time := v)
    case Mode => e.(mode := v)
    case Audience => e.(audience := v)
    case Organizer => e.(organizer := v)
  }

  function WithList(e: Event, p: Path, v: Option<seq<string>>): Event
    requires IsList(p)
  {
    if p == Agenda then e.(agenda := v) else e.(tags := v)
  }

  function MapOption(v: Option<string>, f: string -> string): Option<string>
  {
    if v.Some? then Some(f(v.value)) else None
  }

  /** The value a path stores when `v` is assigned to it: trimmed paths are trimmed. */
  function SetterValue(p: Path, v: Option<string>): Option<string>
  {
    if Trimmed(p) then MapOption(v, Trim) else v
  }

  /** The stored form of a constructor argument: setters applied, the slug lowercased. */
  function ApplySetters(input: Event): Event
  {
    input.(title := MapOption(input.title, Trim), slug := MapOption(input.slug, Lower),
           description := MapOption(input.description, Trim),
           overview := MapOption(input.overview, Trim), venue := MapOption(input.venue, Trim),
           location := MapOption(input.location, Trim), audience := MapOption(input.audience, Trim),
           organizer := MapOption(input.organizer, Trim))
  }

  /** The paths a constructor argument sets; Mongoose marks them modified. */
  function Defined(input: Event): set<Path>
  {
    set p | p in AllPaths && (if IsList(p) then List(input, p).Some? else Text(input, p).Some?)
  }

  // ---------------------------------------------------------------- validation

  /** `required` on a String path: set and not the empty string. */
  /** Whether the validators declared for path p reject the stored event. */
  predicate Fails(e: Event, p: Path)
  {
    match p
    case Title => !(Present(e.title) && |e.title.value| >= MinTitleLength)
    case Mode => !(Present(e.mode) && e.mode.value in ModeNames)
    case Agenda => !(e.agenda.Some? && |e.agenda.value| > 0)
    case Tags => !(e.tags.Some? && |e.tags.value| > 0)
    case _ => !Present(Text(e, p))
  }

  /** The set of paths on which schema validation fails. */
  function Violations(e: Event): set<Path>
  {
    set p | p in AllPaths && Fails(e, p)
  }

  /** The schema's constraints, stated field by field. */
  predicate Conforms(e: Event)
  {
    e.title.Some? && |e.title.value| >= 3
    && Present(e.description) && Present(e.overview) && Present(e.image)
    && Present(e.venue) && Present(e.location) && Present(e.date) && Present(e.time)
    && (e.mode == Some("online") || e.mode == Some("offline") || e.mode == Some("hybrid"))
    && Present(e.audience) && Present(e.organizer)
    && e.agenda.Some? && e.agenda.value != [] && e.tags.Some? && e.tags.value != []
  }

  /** Validation finds nothing exactly when every constraint holds. */
  lemma ValidationExact(e: Event)
    ensures Violations(e) == {} <==> Conforms(e)
  {
    if Violations(e) == {} {
      forall p | p in AllPaths ensures !Fails(e, p) {
        assert p !in Violations(e);
      }
      assert !Fails(e, Title) && !Fails(e, Mode) && !Fails(e, Agenda) && !Fails(e, Tags);
      assert !Fails(e, Description) && !Fails(e, Overview) && !Fails(e, Image) && !Fails(e, Venue);
      assert !Fails(e, Location) && !Fails(e, Date) && !Fails(e, Time) && !Fails(e, Audience);
      assert !Fails(e, Organizer);
    }
  }

  /** An unset or empty string path fails `required`. */
  lemma MissingRejected(input: Event, p: Path)
    requires !IsList(p) && (Text(input, p) == None || Text(input, p) == Some(""))
    ensures p in Violations(ApplySetters(input))
  {
    var e := ApplySetters(input);
    assert Text(e, p) == SetterValue(p, Text(input, p));
  }

  /** Trimming runs before `required`: a blank value on a trimmed path is rejected. */
  lemma BlankRejected(input: Event, p: Path)
    requires Trimmed(p) && Text(input, p).Some? && AllSpace(Text(input, p).value)
    ensures p in Violations(ApplySetters(input))
  {
    var s := Text(input, p).value;
    TrimAllSpace(s);
    assert Text(ApplySetters(input), p) == Some(Trim(s));
  }

  /** The length check applies to the trimmed title. */
  lemma ShortTitleRejected(input: Event)
    requires input.title.Some? && |Trim(input.title.value)| < MinTitleLength
    ensures Title in Violations(ApplySetters(input))
  {
  }

  /** `"  ab  "` has six characters but is rejected: its trimmed form has two. */
  lemma PaddedShortTitleRejected(input: Event)
    requires input.title == Some("  ab  ")
    ensures Title in Violations(ApplySetters(input))
  {
    assert TrimStart("  ab  ") == "ab  ";
    assert TrimEnd("ab  ") == "ab";
  }

  /** A mode outside the three names is rejected; mode has no setter, so `" online"` is too. */
  lemma ModeRejected(input: Event)
    requires input.mode.Some? && input.mode.value !in ModeNames
    ensures Mode in Violations(ApplySetters(input))
  {
  }

  lemma PaddedModeRejected(input: Event)
    requires input.mode == Some(" online")
    ensures Mode in Violations(ApplySetters(input))
  {
    assert " online" != "online" by { assert |" online"| == 7; }
  }

  /** An unset or empty agenda or tag list is rejected. */
  lemma EmptyListRejected(input: Event, p: Path)
    requires IsList(p) && (List(input, p) == None || List(input, p) == Some([]))
    ensures p in Violations(ApplySetters(input))
  {
  }

  // ------------------------------------------------------------ pre-save hook

  /** `s.split("T")[0]`: everything before the first `T`. */
  function BeforeT(s: string): string
  {
    if s == [] || s[0] == 'T' then [] else [s[0]] + BeforeT(s[1..])
  }

  lemma {:induction false} BeforeTIsPrefix(s: string)
    ensures |BeforeT(s)| <= |s| && BeforeT(s) == s[..|BeforeT(s)|]
    ensures 'T' !in BeforeT(s)
    ensures |BeforeT(s)| < |s| ==> s[|BeforeT(s)|] == 'T'
  {
    if s != [] && s[0] != 'T' {
      BeforeTIsPrefix(s[1..]);
    }
  }

  datatype HookResult = HookResult(event: Event, outcome: Outcome<EventError>)

  /**
   * The pre-save hook over the stored fields and the modified paths. `parse`
   * stands for `new Date(d)` followed by `toISOString()`, `None` when the date is
   * invalid. The slug, stored through the slug path's lowercase setter, is
   * assigned before the date and time steps can fail.
   */
  function PreSaveHook(e: Event, m: set<Path>, parse: string -> Option<string>): HookResult
    requires Title in m ==> e.title.Some?
    requires Date in m ==> e.date.Some?
    requires Time in m ==> e.time.Some?
  {
    var e1 := if Title in m then e.(slug := Some(Lower(Slugify(e.title.value)))) else e;
    if Date in m && parse(e.date.value).None? then HookResult(e1, Fail(BadDate))
    else
      var e2 := if Date in m then e1.(date := Some(BeforeT(parse(e.date.value).value))) else e1;
      if Time in m && !IsTime24(e.time.value) then HookResult(e2, Fail(BadTime))
      else HookResult(e2, Pass)
  }

  /** The hook writes only the slug and the date, each only when its source path is modified. */
  lemma HookGating(e: Event, m: set<Path>, parse: string -> Option<string>)
    requires Title in m ==> e.title.Some?
    requires Date in m ==> e.date.Some?
    requires Time in m ==> e.time.Some?
    ensures var r := PreSaveHook(e, m, parse).event;
      r == e.(slug := r.slug, date := r.date)
      && (Title !in m ==> r.slug == e.slug)
      && (Date !in m ==> r.date == e.date)
  {
  }

  /** With none of title, date and time modified the hook passes and changes nothing. */
  lemma HookUnmodifiedNoop(e: Event, m: set<Path>, parse: string -> Option<string>)
    requires Title !in m && Date !in m && Time !in m
    ensures PreSaveHook(e, m, parse) == HookResult(e, Pass)
  {
  }

  /**
   * The hook's steps in order: the slug is derived whenever the title is modified,
   * whatever happens next; an unparsable modified date aborts first and is left as
   * it was; a modified time failing the 24-hour check aborts next; otherwise the
   * hook passes with the date cut at its `T`. The time is never rewritten.
   */
  lemma HookSteps(e: Event, m: set<Path>, parse: string -> Option<string>)
    requires Title in m ==> e.title.Some?
    requires Date in m ==> e.date.Some?
    requires Time in m ==> e.time.Some?
    ensures var r := PreSaveHook(e, m, parse);
      var dateBad := Date in m && parse(e.date.value).None?;
      var timeBad := Time in m && !IsTime24(e.time.value);
      (Title in m ==> r.event.slug == Some(Slugify(e.title.value)))
      && (r.outcome == Fail(BadDate) <==> dateBad)
      && (r.outcome == Fail(BadTime) <==> !dateBad && timeBad)
      && (r.outcome == Pass <==> !dateBad && !timeBad)
      && (dateBad ==> r.event.date == e.date)
      && (Date in m && !dateBad ==> r.event.date == Some(BeforeT(parse(e.date.value).value)))
      && r.event.time == e.time && r.event.title == e.title
  {
    if Title in m {
      SlugIsLowercase(e.title.value);
    }
  }

  // --------------------------------------------------------------------- save

  datatype SaveResult = SaveResult(doc: Doc, outcome: Outcome<EventError>, persisted: Option<Event>)

  /**
   * `save()`: schema validation runs first (Mongoose's validate-before-save hook
   * precedes the schema's own pre-save hooks), then the hook. Only a save that
   * passes both persists; it clears the modified paths and the document is no
   * longer new. A failing hook leaves its in-memory writes on the document.
   */
  function SaveEvent(d: Doc, parse: string -> Option<string>): SaveResult
  {
    var v := Violations(d.event);
    if v != {} then SaveResult(d, Fail(Invalid(v)), None)
    else
      ValidationExact(d.event);
      var h := PreSaveHook(d.event, d.modified, parse);
      if h.outcome.Fail? then SaveResult(d.(event := h.event), h.outcome, None)
      else SaveResult(Doc(h.event, {}, false), Pass, Some(h.event))
  }

  /** Nothing is persisted unless the whole save passes; a failing save keeps the modified paths. */
  lemma SaveAllOrNothing(d: Doc, parse: string -> Option<string>)
    ensures var r := SaveEvent(d, parse);
      (r.persisted.Some? <==> r.outcome == Pass)
      && (r.outcome.Fail? ==> r.doc.modified == d.modified && r.doc.isNew == d.isNew)
      && (Violations(d.event) != {} <==> r.outcome == Fail(Invalid(Violations(d.event))))
      && (Violations(d.event) != {} ==> r.doc == d)
  {
  }

  /**
   * What a passing save persists: the validated record with at most its slug and
   * date rewritten, meeting every constraint save for a date the normalisation
   * emptied; the document is then clean and no longer new.
   */
  lemma SavePersisted(d: Doc, parse: string -> Option<string>)
    requires SaveEvent(d, parse).outcome == Pass
    ensures var r := SaveEvent(d, parse);
      Conforms(d.event) && r.persisted == Some(r.doc.event)
      && r.doc.modified == {} && !r.doc.isNew
      && r.doc.event == d.event.(slug := r.doc.event.slug, date := r.doc.event.date)
      && Violations(r.doc.event) <= {Date}
  {
    ValidationExact(d.event);
    HookGating(d.event, d.modified, parse);
    var e := SaveEvent(d, parse).doc.event;
    forall p | p in Violations(e) ensures p == Date {
      assert p !in Violations(d.event);
    }
  }

  /** A save of a document with nothing modified writes nothing through the hook. */
  lemma SaveUnmodified(d: Doc, parse: string -> Option<string>)
    requires d.modified == {}
    ensures Violations(d.event) == {} ==>
      SaveEvent(d, parse) == SaveResult(d.(isNew := false), Pass, Some(d.event))
  {
  }

  /** Saving again right after a successful save changes nothing. */
  lemma SaveTwice(d: Doc, parse: string -> Option<string>)
    requires SaveEvent(d, parse).outcome == Pass
    ensures var r1 := SaveEvent(d, parse);
      var r2 := SaveEvent(r1.doc, parse);
      r2.doc == r1.doc && (r2.outcome == Pass ==> r2.persisted == r1.persisted)
      && (r2.outcome != Pass ==> r2.outcome == Fail(Invalid({Date})))
  {
    var r1 := SaveEvent(d, parse);
    SavePersisted(d, parse);
    assert Violations(r1.doc.event) == {} || Violations(r1.doc.event) == {Date};
  }

  /**
   * The derived fields kept in step with their sources: the slug with the title,
   * the date in its cut form, the time in 24-hour form. A stored record is
   * consistent.
   */
  predicate Consistent(e: Event)
  {
    (e.title.Some? ==> e.slug == Some(Slugify(e.title.value)))
    && (e.date.Some? ==> 'T' !in e.date.value)
    && (e.time.Some? ==> IsTime24(e.time.value))
  }

  /** Each derived fact holds unless its source path is awaiting the hook. */
  predicate Tracked(d: Doc)
  {
    (Title !in d.modified && d.event.title.Some? ==> d.event.slug == Some(Slugify(d.event.title.value)))
    && (Date !in d.modified && d.event.date.Some? ==> 'T' !in d.event.date.value)
    && (Time !in d.modified && d.event.time.Some? ==> IsTime24(d.event.time.value))
  }

  /** A new document tracks its derived fields: every path it sets is modified. */
  lemma NewDocTracked(input: Event)
    ensures Tracked(Doc(ApplySetters(input), Defined(input), true))
  {
    assert input.title.Some? ==> Title in Defined(input);
    assert input.date.Some? ==> Date in Defined(input);
    assert input.time.Some? ==> Time in Defined(input);
  }

  /** The effect of assigning `v` to a string path: the setter's value, marked modified if it changed. */
  function AssignText(d: Doc, p: Path, v: Option<string>): Doc
    requires !IsList(p)
  {
    var s := SetterValue(p, v);
    if s == Text(d.event, p) then d
    else Doc(WithText(d.event, p, s), d.modified + {p}, d.isNew)
  }

  function AssignList(d: Doc, p: Path, v: Option<seq<string>>): Doc
    requires IsList(p)
  {
    if v == List(d.event, p) then d
    else Doc(WithList(d.event, p, v), d.modified + {p}, d.isNew)
  }

  lemma AssignTracked(d: Doc, p: Path, v: Option<string>)
    requires Tracked(d) && !IsList(p)
    ensures Tracked(AssignText(d, p, v))
  {
  }

  lemma AssignListTracked(d: Doc, p: Path, v: Option<seq<string>>)
    requires Tracked(d) && IsList(p)
    ensures Tracked(AssignList(d, p, v))
  {
  }

  /** Save keeps the tracking invariant, and what a save persists is consistent. */
  lemma SaveTracked(d: Doc, parse: string -> Option<string>)
    requires Tracked(d)
    ensures Tracked(SaveEvent(d, parse).doc)
    ensures SaveEvent(d, parse).persisted.Some? ==> Consistent(SaveEvent(d, parse).persisted.value)
  {
    if Violations(d.event) == {} {
      ValidationExact(d.event);
      HookSteps(d.event, d.modified, parse);
      var h := PreSaveHook(d.event, d.modified, parse);
      if Date in d.modified && h.outcome == Pass {
        BeforeTIsPrefix(parse(d.event.date.value).value);
      }
    }
  }

  // ----------------------------------------------------------------- document

  /** An Event document, updated in place by assignments and by `save()`. */
  class EventDocument {
    var event: Event
    var modified: set<Path>
    var isNew: bool

    function State(): Doc
      reads this
    {
      Doc(event, modified, isNew)
    }

    /** `new Event(input)`: setters applied, every given path marked modified. */
    constructor (input: Event)
      ensures State() == Doc(ApplySetters(input), Defined(input), true)
      ensures Tracked(State())
    {
      event := ApplySetters(input);
      modified := Defined(input);
      isNew := true;
      NewDocTracked(input);
    }

    /** Assignment to a string path. */
    method SetText(p: Path, v: Option<string>)
      requires !IsList(p)
      modifies this
      ensures State() == AssignText(old(State()), p, v)
      ensures old(Tracked(State())) ==> Tracked(State())
    {
      var s := SetterValue(p, v);
      if s != Text(event, p) {
        event := WithText(event, p, s);
        modified := modified + {p};
      }
    }

    /** Assignment to the agenda or the tags. */
    method SetList(p: Path, v: Option<seq<string>>)
      requires IsList(p)
      modifies this
      ensures State() == AssignList(old(State()), p, v)
      ensures old(Tracked(State())) ==> Tracked(State())
    {
      if v != List(event, p) {
        event := WithList(event, p, v);
        modified := modified + {p};
      }
    }

    /** The hook, step by step, with its early returns through `next(err)`. */
    method RunHook(parse: string -> Option<string>) returns (outcome: Outcome<EventError>)
      requires Title in modified ==> event.title.Some?
      requires Date in modified ==> event.date.Some?
      requires Time in modified ==> event.time.Some?
      modifies this
      ensures modified == old(modified) && isNew == old(isNew)
      ensures PreSaveHook(old(event), modified, parse) == HookResult(event, outcome)
    {
      if Title in modified {
        event := event.(slug := Some(Lower(Slugify(event.title.value))));
      }
      if Date in modified {
        var iso := parse(event.date.value);
        if iso.None? {
          return Fail(BadDate);
        }
        event := event.(date := Some(BeforeT(iso.value)));
      }
      if Time in modified {
        if !IsTime24(event.time.value) {
          return Fail(BadTime);
        }
      }
      return Pass;
    }

    /** `save()`: validate, run the hook, and on success persist and clear the modified paths. */
    method Save(parse: string -> Option<string>) returns (outcome: Outcome<EventError>, persisted: Option<Event>)
      modifies this
      ensures SaveEvent(old(State()), parse) == SaveResult(State(), outcome, persisted)
      ensures old(Tracked(State())) ==> Tracked(State())
    {
      ghost var before := State();
      var v := Violations(event);
      if v != {} {
        return Fail(Invalid(v)), None;
      }
      ValidationExact(event);
      outcome := RunHook(parse);
      ghost var h := PreSaveHook(before.event, before.modified, parse);
      assert h == HookResult(event, outcome);
      if outcome.Fail? {
        persisted := None;
        assert SaveEvent(before, parse) == SaveResult(before.(event := h.event), h.outcome, None);
      } else {
        modified := {};
        isNew := false;
        persisted := Some(event);
        assert SaveEvent(before, parse) == SaveResult(Doc(h.event, {}, false), Pass, Some(h.event));
      }
      if Tracked(before) {
        SaveTracked(before, parse);
      }
    }
  }
}
