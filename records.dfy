/** The JSON records the meeting-transcription API returns, as the scripts
    read them. A key of a JSON object can be missing, present with `null`, or
    present with a value; Python's `obj.get(k, d)` tells the first two apart
    (the default versus `None`) while `obj.get(k) or d` does not, so every
    object field is a three-valued `Field`. Elements of a JSON list are an
    `Option`, `None` standing for a `null` element. */
module Records {
  import opened Wrappers

  datatype Field<+T> = Absent | Null | Val(value: T)

  /** Python truthiness of a string-valued field: present, not null, not "". */
  predicate Truthy(f: Field<string>)
  {
    f.Val? && f.value != ""
  }

  /** `obj.get(k) or d`. */
  function OrElse(f: Field<string>, d: string): (r: string)
    ensures Truthy(f) ==> r == f.value
    ensures !Truthy(f) ==> r == d
  {
    if Truthy(f) then f.value else d
  }

  /** The text of `f"{obj.get(k, d)}"`: the default for a missing key, "None"
      for a null value. */
  function Shown(f: Field<string>, d: string): (r: string)
    ensures f.Absent? ==> r == d
    ensures f.Null? ==> r == "None"
    ensures f.Val? ==> r == f.value
  {
    match f
    case Absent => d
    case Null => "None"
    case Val(s) => s
  }

  /** `obj.get(k, []) or []` for a list-valued field. */
  function Items<T>(f: Field<seq<T>>): (r: seq<T>)
    ensures f.Val? ==> r == f.value
    ensures !f.Val? ==> r == []
  {
    if f.Val? then f.value else []
  }

  /** A truthy list field: present, not null, not empty. */
  predicate NonEmptyList<T>(f: Field<seq<T>>)
  {
    f.Val? && |f.value| > 0
  }

  /** One spoken sentence of a transcript. */
  datatype Sentence = Sentence(text: Field<string>, rawText: Field<string>, speakerName: Field<string>)

  /** `s.get("text") or s.get("raw_text", "")`: the text, falling back to the
      raw text, then to "" (a null raw text is falsy as well). */
  function SpokenText(s: Sentence): (r: string)
    ensures Truthy(s.text) ==> r == s.text.value
    ensures !Truthy(s.text) && Truthy(s.rawText) ==> r == s.rawText.value
    ensures !Truthy(s.text) && !Truthy(s.rawText) ==> r == ""
  {
    OrElse(s.text, OrElse(s.rawText, ""))
  }

  /** A sentence that has spoken text: `if sentence and sentence.get("text")`. */
  predicate Spoken(s: Option<Sentence>)
  {
    s.Some? && Truthy(s.value.text)
  }

  /** A sentence that adds a speaker to a `speakers` set:
      `if sentence and sentence.get("speaker_name")`. */
  predicate NamedSpeaker(s: Option<Sentence>)
  {
    s.Some? && Truthy(s.value.speakerName)
  }

  /** The `summary` object. */
  datatype Summary = Summary(overview: Field<string>)

  /** One entry of `meeting_attendees` (only its `email` is read). */
  datatype Attendee = Attendee(email: Field<string>)

  /** A transcript record. `date` is the API's millisecond timestamp, a number;
      `participants` and `fireflies_users` are lists of strings (or nulls). */
  datatype Transcript = Transcript(
    id: Field<string>,
    title: Field<string>,
    dateString: Field<string>,
    date: Field<int>,
    transcriptUrl: Field<string>,
    hostEmail: Field<string>,
    organizerEmail: Field<string>,
    participants: Field<seq<Option<string>>>,
    firefliesUsers: Field<seq<Option<string>>>,
    meetingAttendees: Field<seq<Option<Attendee>>>,
    summary: Field<Summary>,
    sentences: Field<seq<Option<Sentence>>>)

  /** `if summary and summary.get("overview")`: a summary object (a null one
      is falsy, and so is one without keys) with a truthy overview. */
  predicate HasOverview(t: Transcript)
  {
    t.summary.Val? && Truthy(t.summary.value.overview)
  }

  /** The transcript is the empty JSON object `{}`, which Python treats as false. */
  predicate IsEmptyObject(t: Transcript)
  {
    t.id.Absent? && t.title.Absent? && t.dateString.Absent? && t.date.Absent?
    && t.transcriptUrl.Absent? && t.hostEmail.Absent? && t.organizerEmail.Absent?
    && t.participants.Absent? && t.firefliesUsers.Absent? && t.meetingAttendees.Absent?
    && t.summary.Absent? && t.sentences.Absent?
  }

  /** `str(e)` of the TypeError raised by slicing a null value, as in
      `None[:10]`. */
  const NotSubscriptable := "'NoneType' object is not subscriptable"

  /** A transcript with every field missing but the ones given; used to state
      concrete examples. */
  const Blank := Transcript(Absent, Absent, Absent, Absent, Absent, Absent, Absent,
                            Absent, Absent, Absent, Absent, Absent)
}
