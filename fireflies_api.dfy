/** The API client: choosing the API key, classifying a GraphQL response,
    extracting the results of the two transcript queries, and rendering a
    transcript as text. The HTTP request itself is not modelled: an
    `Exchange` is what the request produced, a transport failure or a
    response. */
module FirefliesApi {
  import opened Wrappers
  import opened Text
  import opened Records

  // ----- the client and its key -----

  /** A client holds one API key, fixed when it is built. */
  datatype Client = Client(apiKey: string)

  const MissingKey := "FIREFLIES_API_KEY not set. Please set it in .env file or provide it directly."

  /** `FirefliesAPI(api_key)`: a truthy explicit key wins; otherwise the key
      loaded from the environment (`loaded`, `None` when loading found
      nothing); with neither, a ValueError. */
  function NewClient(apiKey: Option<string>, loaded: Option<string>): (r: Result<Client, string>)
    ensures apiKey.Some? && apiKey.value != "" ==> r == Success(Client(apiKey.value))
    ensures (apiKey.None? || apiKey.value == "") && loaded.Some? && loaded.value != "" ==> r == Success(Client(loaded.value))
    ensures r.Failure? <==> (apiKey.None? || apiKey.value == "") && (loaded.None? || loaded.value == "")
    ensures r.Failure? ==> r.error == MissingKey
    ensures r.Success? ==> r.value.apiKey != ""
  {
    if apiKey.Some? && apiKey.value != "" then Success(Client(apiKey.value))
    else if loaded.Some? && loaded.value != "" then Success(Client(loaded.value))
    else Failure(MissingKey)
  }

  /** An explicit key makes the environment irrelevant. */
  lemma ExplicitKeyIgnoresEnvironment(key: string, loaded1: Option<string>, loaded2: Option<string>)
    requires key != ""
    ensures NewClient(Some(key), loaded1) == NewClient(Some(key), loaded2)
    ensures NewClient(Some(key), loaded1).Success? && NewClient(Some(key), loaded1).value.apiKey == key
  {
  }

  // ----- responses -----

  /** One entry of a GraphQL `errors` list. */
  datatype GqlError = GqlError(message: Field<string>)

  /** The `data` object; only the two keys the scripts read. */
  datatype Data = Data(transcripts: Field<seq<Transcript>>, transcript: Field<Transcript>)

  /** A response body: either not JSON (with the decoder's message) or a
      JSON object with its `errors` and `data` keys. */
  datatype Body =
    | NotJson(decodeError: string)
    | JsonObject(errors: Field<seq<Option<GqlError>>>, data: Field<Data>)

  datatype HttpResponse = HttpResponse(status: nat, text: string, body: Body)

  /** What `requests.post` produced. */
  datatype Exchange = TransportFailure(reason: string) | Answer(response: HttpResponse)

  /** The two kinds of exception `execute_query` raises: a
      `requests.RequestException` (also raised for an undecodable 200 body)
      or a `ValueError`. */
  datatype ApiError = RequestError(reason: string) | ApiValueError(message: string)

  /** `str(e)` of the raised exception. */
  function ErrorText(e: ApiError): string
  {
    match e
    case RequestError(reason) => reason
    case ApiValueError(message) => message
  }

  /** `resp.text[:100]`. */
  function Prefix100(s: string): (r: string)
    ensures |r| <= 100 && |r| <= |s| && r == s[..|r|]
    ensures |s| <= 100 ==> r == s
  {
    if |s| <= 100 then s else s[..100]
  }

  /** The detail after "API request failed with status N: ": the first error's
      message ("Unknown error" when the body has no `errors` key); the start of
      the raw text whenever reading that fails (body not JSON, `errors` null or
      empty, first entry null). */
  function StatusDetail(r: HttpResponse): string
  {
    match r.body
    case NotJson(_) => Prefix100(r.text)
    case JsonObject(errors, _) =>
      match errors
      case Absent => "Unknown error"
      case Null => Prefix100(r.text)
      case Val(es) =>
        if |es| == 0 || es[0].None? then Prefix100(r.text)
        else Shown(es[0].value.message, "Unknown error")
  }

  /** Index of the first null entry, or |es|. */
  function FirstNullEntry(es: seq<Option<GqlError>>): (i: nat)
    ensures i <= |es|
    ensures forall j :: 0 <= j < i ==> es[j].Some?
    ensures i < |es| ==> es[i].None?
  {
    if es == [] then 0
    else if es[0].None? then 0
    else 1 + FirstNullEntry(es[1..])
  }

  /** Index of the first entry whose message is null, or |es|. */
  function FirstNullMessage(es: seq<GqlError>): (i: nat)
    ensures i <= |es|
    ensures forall j :: 0 <= j < i ==> !es[j].message.Null?
    ensures i < |es| ==> es[i].message.Null?
  {
    if es == [] then 0
    else if es[0].message.Null? then 0
    else 1 + FirstNullMessage(es[1..])
  }

  /** `[error.get("message", "Unknown GraphQL error") for error in errors]`
      once no entry is null and no message is null. */
  function Messages(es: seq<GqlError>): (ms: seq<string>)
    ensures |ms| == |es|
    ensures forall j :: 0 <= j < |es| ==> ms[j] == Shown(es[j].message, "Unknown GraphQL error")
  {
    if es == [] then [] else [Shown(es[0].message, "Unknown GraphQL error")] + Messages(es[1..])
  }

  function Present(es: seq<Option<GqlError>>): (r: seq<GqlError>)
    requires forall j :: 0 <= j < |es| ==> es[j].Some?
    ensures |r| == |es| && forall j :: 0 <= j < |es| ==> r[j] == es[j].value
  {
    if es == [] then [] else [es[0].value] + Present(es[1..])
  }

  /** The ValueError for a 200 response whose body has an `errors` key. An
      iteration or join failure inside is re-raised as "Unexpected error: ...". */
  function GraphQLError(errors: Field<seq<Option<GqlError>>>): string
    requires !errors.Absent?
  {
    if errors.Null? then "Unexpected error: 'NoneType' object is not iterable"
    else
      var es := errors.value;
      if FirstNullEntry(es) < |es| then "Unexpected error: 'NoneType' object has no attribute 'get'"
      else
        var gs := Present(es);
        var k := FirstNullMessage(gs);
        if k < |gs| then
          "Unexpected error: sequence item " + NatToString(k) + ": expected str instance, NoneType found"
        else "GraphQL errors: " + Join(Messages(gs), "; ")
  }

  /** `execute_query`: the value of `data` (`None` when absent or null), or the
      exception it raises. */
  function ExecuteQuery(x: Exchange): (r: Result<Option<Data>, ApiError>)
    ensures x.TransportFailure? ==> r == Failure(RequestError(x.reason))
    ensures x.Answer? && x.response.status != 200 ==>
              r == Failure(ApiValueError("API request failed with status " + NatToString(x.response.status) + ": " + StatusDetail(x.response)))
    ensures x.Answer? && x.response.status == 200 && x.response.body.NotJson? ==>
              r == Failure(RequestError(x.response.body.decodeError))
    ensures x.Answer? && x.response.status == 200 && x.response.body.JsonObject? && !x.response.body.errors.Absent? ==>
              r == Failure(ApiValueError(GraphQLError(x.response.body.errors)))
  {
    match x
    case TransportFailure(reason) => Failure(RequestError(reason))
    case Answer(resp) =>
      if resp.status != 200 then
        Failure(ApiValueError("API request failed with status " + NatToString(resp.status) + ": " + StatusDetail(resp)))
      else
        match resp.body
        case NotJson(e) => Failure(RequestError(e))
        case JsonObject(errors, data) =>
          if !errors.Absent? then Failure(ApiValueError(GraphQLError(errors)))
          else if data.Val? then Success(Some(data.value)) else Success(None)
  }

  /** A query succeeds exactly for a 200 JSON object without an `errors` key,
      and then yields its `data` value. */
  lemma ExecuteQuerySucceeds(x: Exchange)
    ensures ExecuteQuery(x).Success? <==>
              x.Answer? && x.response.status == 200 && x.response.body.JsonObject? && x.response.body.errors.Absent?
    ensures ExecuteQuery(x).Success? ==>
              (ExecuteQuery(x).value.Some? <==> x.response.body.data.Val?)
              && (x.response.body.data.Val? ==> ExecuteQuery(x).value.value == x.response.body.data.value)
  {
  }

  /** Every failure is one of the two exception kinds with a message that
      names its cause: a non-200 status is reported with that status. */
  lemma StatusErrorMentionsStatus(x: Exchange)
    requires x.Answer? && x.response.status != 200
    ensures ExecuteQuery(x).Failure? && ExecuteQuery(x).error.ApiValueError?
    ensures StartsWith(ErrorText(ExecuteQuery(x).error), "API request failed with status " + NatToString(x.response.status))
  {
    var p := "API request failed with status " + NatToString(x.response.status);
    var m := p + ": " + StatusDetail(x.response);
    assert m[..|p|] == p;
  }

  /** With well-formed entries, the GraphQL error lists every message in
      order, separated by "; ". */
  lemma GraphQLErrorJoinsMessages(gs: seq<GqlError>)
    requires forall j :: 0 <= j < |gs| ==> !gs[j].message.Null?
    ensures GraphQLError(Val(seq(|gs|, j requires 0 <= j < |gs| => Some(gs[j]))))
              == "GraphQL errors: " + Join(Messages(gs), "; ")
  {
    var es := seq(|gs|, j requires 0 <= j < |gs| => Some(gs[j]));
    assert Present(es) == gs;
    assert FirstNullMessage(gs) == |gs|;
  }

  /** A single GraphQL error with message `m` is raised as "GraphQL errors: m",
      whatever the response text and the data. */
  lemma GraphQLErrorExample(m: string, text: string, data: Field<Data>)
    ensures ExecuteQuery(Answer(HttpResponse(200, text, JsonObject(Val([Some(GqlError(Val(m)))]), data))))
              == Failure(ApiValueError("GraphQL errors: " + m))
  {
    var g := GqlError(Val(m));
    var es := [Some(g)];
    assert FirstNullEntry(es) == 1;
    assert Present(es) == [g];
    assert FirstNullMessage([g]) == 1;
    assert Messages([g]) == [m];
  }

  // ----- result extraction -----

  /** `get_recent_transcripts`: the `transcripts` list, [] when there is no
      data or no such key, `None` when the key holds null; a query error is
      re-raised with a prefix. */
  function RecentTranscripts(x: Exchange): (r: Result<Option<seq<Transcript>>, string>)
    ensures ExecuteQuery(x).Failure? <==> r.Failure?
    ensures r.Failure? ==> r.error == "Failed to fetch recent transcripts: " + ErrorText(ExecuteQuery(x).error)
    ensures ExecuteQuery(x) == Success(None) ==> r == Success(Some([]))
    ensures ExecuteQuery(x).Success? && ExecuteQuery(x).value.Some? ==>
              match ExecuteQuery(x).value.value.transcripts
              case Absent => r == Success(Some([]))
              case Null => r == Success(None)
              case Val(ts) => r == Success(Some(ts))
  {
    match ExecuteQuery(x)
    case Failure(e) => Failure("Failed to fetch recent transcripts: " + ErrorText(e))
    case Success(None) => Success(Some([]))
    case Success(Some(d)) =>
      match d.transcripts
      case Absent => Success(Some([]))
      case Null => Success(None)
      case Val(ts) => Success(Some(ts))
  }

  /** `get_transcript_by_id`: the `transcript` object, or `None` when there is
      no data, no such key, null, or the empty object. */
  function TranscriptById(id: string, x: Exchange): (r: Result<Option<Transcript>, string>)
    ensures ExecuteQuery(x).Failure? <==> r.Failure?
    ensures r.Failure? ==> r.error == "Failed to fetch transcript " + id + ": " + ErrorText(ExecuteQuery(x).error)
    ensures r.Success? && r.value.Some? <==>
              ExecuteQuery(x).Success? && ExecuteQuery(x).value.Some?
              && ExecuteQuery(x).value.value.transcript.Val?
              && !IsEmptyObject(ExecuteQuery(x).value.value.transcript.value)
    ensures r.Success? && r.value.Some? ==> r.value.value == ExecuteQuery(x).value.value.transcript.value
  {
    match ExecuteQuery(x)
    case Failure(e) => Failure("Failed to fetch transcript " + id + ": " + ErrorText(e))
    case Success(None) => Success(None)
    case Success(Some(d)) =>
      if d.transcript.Val? && !IsEmptyObject(d.transcript.value) then Success(Some(d.transcript.value))
      else Success(None)
  }

  // ----- format_transcript -----

  /** The outcome of `format_transcript` before it is turned into text. */
  datatype Formatted = Empty | Broken(message: string) | Lines(lines: seq<string>)

  const FormatErrorPrefix := "Error formatting transcript: "
  /** `str(e)` of the AttributeError a null sentence raises. */
  const NoAttributeGet := "'NoneType' object has no attribute 'get'"

  function Header(t: Transcript): string
  {
    "=== " + Shown(t.title, "") + " (" + Shown(t.dateString, "") + ") ==="
  }

  /** The summary line, present only for a non-null summary with a truthy overview. */
  function SummaryLines(t: Transcript): (r: seq<string>)
    ensures |r| <= 1
    ensures |r| == 1 <==> t.summary.Val? && Truthy(t.summary.value.overview)
  {
    if t.summary.Val? && Truthy(t.summary.value.overview) then
      ["Summary: " + t.summary.value.overview.value + "\n"]
    else []
  }

  function ProcessingNote(t: Transcript): string
  {
    "Note: Meeting '" + Shown(t.title, "Unknown") + "' is still processing. Transcript not available yet."
  }

  /** `f"{speaker}: {text}"` with speaker defaulting to "Unknown" and text
      falling back to raw_text, then to "". */
  function SpeakerLine(s: Sentence): string
  {
    Shown(s.speakerName, "Unknown") + ": " + SpokenText(s)
  }

  /** One line per sentence, in order; `None` when some sentence is null. */
  function SpeakerLines(ss: seq<Option<Sentence>>): (r: Option<seq<string>>)
    ensures r.Some? <==> forall k :: 0 <= k < |ss| ==> ss[k].Some?
    ensures r.Some? ==> |r.value| == |ss| && forall k :: 0 <= k < |ss| ==> r.value[k] == SpeakerLine(ss[k].value)
  {
    if ss == [] then Some([])
    else
      var rest := SpeakerLines(ss[..|ss| - 1]);
      if rest.None? || ss[|ss| - 1].None? then None
      else Some(rest.value + [SpeakerLine(ss[|ss| - 1].value)])
  }

  /** `format_transcript` as a value. */
  function Layout(t: Option<Transcript>): Formatted
  {
    if t.None? || IsEmptyObject(t.value) then Empty
    else
      var tr := t.value;
      if tr.title.Absent? then Broken("'title'")
      else if tr.dateString.Absent? then Broken("'dateString'")
      else
        var head := [Header(tr)] + SummaryLines(tr);
        if !NonEmptyList(tr.sentences) then Lines(head + [ProcessingNote(tr)])
        else
          var body := SpeakerLines(tr.sentences.value);
          if body.None? then Broken(NoAttributeGet)
          else Lines(head + ["Transcript:"] + body.value)
  }

  function Render(f: Formatted): string
  {
    match f
    case Empty => ""
    case Broken(m) => FormatErrorPrefix + m
    case Lines(ls) => Join(ls, "\n")
  }

  /** The text `format_transcript` returns. */
  function FormatText(t: Option<Transcript>): string
  {
    Render(Layout(t))
  }

  /** `format_transcript`: builds the list of lines by appending, then joins it. */
  method FormatTranscript(t: Option<Transcript>) returns (s: string)
    ensures s == FormatText(t)
  {
    if t.None? || IsEmptyObject(t.value) {
      return "";
    }
    var tr := t.value;
    if tr.title.Absent? {
      return FormatErrorPrefix + "'title'";
    }
    if tr.dateString.Absent? {
      return FormatErrorPrefix + "'dateString'";
    }
    var lines := [Header(tr)];
    if tr.summary.Val? && Truthy(tr.summary.value.overview) {
      lines := lines + ["Summary: " + tr.summary.value.overview.value + "\n"];
    }
    assert lines == [Header(tr)] + SummaryLines(tr);
    LayoutWithoutSentences(tr, lines);
    if !NonEmptyList(tr.sentences) {
      lines := lines + [ProcessingNote(tr)];
      return Join(lines, "\n");
    }
    lines := lines + ["Transcript:"];
    LayoutWithSentences(tr, lines);
    var ok;
    ok, lines := AppendSpeakerLines(lines, tr.sentences.value);
    if !ok {
      return FormatErrorPrefix + NoAttributeGet;
    }
    s := Join(lines, "\n");
  }

  /** The sentence loop of `format_transcript`: appends one line per
      sentence, and fails (as the AttributeError) at the first null one. */
  method AppendSpeakerLines(head: seq<string>, ss: seq<Option<Sentence>>) returns (ok: bool, lines: seq<string>)
    ensures ok <==> SpeakerLines(ss).Some?
    ensures ok ==> lines == head + SpeakerLines(ss).value
  {
    lines := head;
    var i := 0;
    while i < |ss|
      invariant 0 <= i <= |ss|
      invariant SpeakerLines(ss[..i]).Some?
      invariant lines == head + SpeakerLines(ss[..i]).value
    {
      assert ss[..i + 1][..i] == ss[..i];
      if ss[i].None? {
        return false, lines;
      }
      lines := lines + [SpeakerLine(ss[i].value)];
      i := i + 1;
    }
    assert ss[..i] == ss;
    return true, lines;
  }

  /** The layout of a transcript without sentences, given its first lines `head`. */
  lemma LayoutWithoutSentences(tr: Transcript, head: seq<string>)
    requires !IsEmptyObject(tr) && !tr.title.Absent? && !tr.dateString.Absent?
    requires head == [Header(tr)] + SummaryLines(tr)
    ensures !NonEmptyList(tr.sentences) ==> Layout(Some(tr)) == Lines(head + [ProcessingNote(tr)])
  {
  }

  /** The layout of a transcript whose sentence list is non-empty, given
      its first lines `head`. */
  lemma LayoutWithSentences(tr: Transcript, head: seq<string>)
    requires !IsEmptyObject(tr) && !tr.title.Absent? && !tr.dateString.Absent? && NonEmptyList(tr.sentences)
    requires head == [Header(tr)] + SummaryLines(tr) + ["Transcript:"]
    ensures SpeakerLines(tr.sentences.value).None? ==> Layout(Some(tr)) == Broken(NoAttributeGet)
    ensures SpeakerLines(tr.sentences.value).Some? ==> Layout(Some(tr)) == Lines(head + SpeakerLines(tr.sentences.value).value)
  {
  }

  /** `None` and the empty object format to "". */
  lemma FormatEmpty(t: Option<Transcript>)
    ensures FormatText(t) == "" <== (t.None? || IsEmptyObject(t.value))
    ensures Layout(t) == Empty <==> (t.None? || IsEmptyObject(t.value))
  {
  }

  /** The first line is always the header with the title and date. */
  lemma FormatStartsWithHeader(t: Transcript)
    requires !IsEmptyObject(t) && t.title.Val? && t.dateString.Val?
    ensures Layout(Some(t)).Lines? || Layout(Some(t)).Broken?
    ensures Layout(Some(t)).Lines? ==> Layout(Some(t)).lines[0] == "=== " + t.title.value + " (" + t.dateString.value + ") ==="
    ensures StartsWith(FormatText(Some(t)), "=== " + t.title.value + " (" + t.dateString.value + ") ===") || Layout(Some(t)).Broken?
  {
    var f := Layout(Some(t));
    if f.Lines? {
      JoinStartsWith(f.lines, "\n");
    }
  }

  /** The summary line appears right after the header exactly when the
      summary is non-null and its overview is non-empty. */
  lemma FormatSummaryLine(t: Transcript)
    requires Layout(Some(t)).Lines?
    ensures (|Layout(Some(t)).lines| > 1 && Layout(Some(t)).lines[1] == "Summary: " + OrElse(if t.summary.Val? then t.summary.value.overview else Absent, "") + "\n")
              <==> t.summary.Val? && Truthy(t.summary.value.overview)
  {
    var ls := Layout(Some(t)).lines;
    if !(t.summary.Val? && Truthy(t.summary.value.overview)) {
      if NonEmptyList(t.sentences) {
        assert ls[1] == "Transcript:";
        assert ls[1] != "Summary: \n" by { assert ls[1][0] == 'T'; }
      } else {
        assert ls[1] == ProcessingNote(t);
        assert ls[1][0] == 'N';
      }
    }
  }

  /** With no sentences the text ends with the processing note and has no
      "Transcript:" line. */
  lemma FormatStillProcessing(t: Transcript)
    requires !IsEmptyObject(t) && t.title.Val? && t.dateString.Val? && !NonEmptyList(t.sentences)
    ensures Layout(Some(t)).Lines?
    ensures Layout(Some(t)).lines[|Layout(Some(t)).lines| - 1] == ProcessingNote(t)
    ensures "Transcript:" !in Layout(Some(t)).lines
  {
    var ls := Layout(Some(t)).lines;
    forall k | 0 <= k < |ls| ensures ls[k] != "Transcript:" {
      if k == 0 { assert ls[k][0] == '='; }
      else if k == |ls| - 1 { assert ls[k][0] == 'N'; }
      else { assert ls[k] == SummaryLines(t)[0]; assert ls[k][0] == 'S'; }
    }
  }

  /** With sentences, after the header (and summary) and "Transcript:" there is
      exactly one line per sentence, in order. */
  lemma FormatOneLinePerSentence(t: Transcript)
    requires !IsEmptyObject(t) && t.title.Val? && t.dateString.Val? && NonEmptyList(t.sentences)
    requires forall k :: 0 <= k < |t.sentences.value| ==> t.sentences.value[k].Some?
    ensures Layout(Some(t)).Lines?
    ensures var ls := Layout(Some(t)).lines; var n := 2 + |SummaryLines(t)|;
            |ls| == n + |t.sentences.value|
            && ls[n - 1] == "Transcript:"
            && forall k :: 0 <= k < |t.sentences.value| ==> ls[n + k] == SpeakerLine(t.sentences.value[k].value)
  {
  }

  /** A null sentence makes formatting fail with the AttributeError text. */
  lemma FormatNullSentence(t: Transcript, k: nat)
    requires !IsEmptyObject(t) && t.title.Val? && t.dateString.Val? && NonEmptyList(t.sentences)
    requires k < |t.sentences.value| && t.sentences.value[k].None?
    ensures Layout(Some(t)) == Broken(NoAttributeGet)
    ensures FormatText(Some(t)) == FormatErrorPrefix + NoAttributeGet
  {
    assert SpeakerLines(t.sentences.value).None?;
  }

  /** The complete example shape: a titled, dated transcript with a summary
      overview and two spoken sentences lays out as the header, the summary
      line, "Transcript:" and one "speaker: text" line per sentence. */
  lemma FormatExample(title: string, date: string, overview: string, s1: string, t1: string, s2: string, t2: string)
    requires overview != "" && t1 != "" && t2 != ""
    ensures var t := Blank.(title := Val(title), dateString := Val(date),
                            summary := Val(Summary(Val(overview))),
                            sentences := Val([Some(Sentence(Val(t1), Absent, Val(s1))),
                                              Some(Sentence(Val(t2), Absent, Val(s2)))]));
            Layout(Some(t)) == Lines(["=== " + title + " (" + date + ") ===", "Summary: " + overview + "\n", "Transcript:",
                                      s1 + ": " + t1, s2 + ": " + t2])
  {
    var ss := [Some(Sentence(Val(t1), Absent, Val(s1))), Some(Sentence(Val(t2), Absent, Val(s2)))];
    var t := Blank.(title := Val(title), dateString := Val(date),
                    summary := Val(Summary(Val(overview))), sentences := Val(ss));
    assert ss[..1] == [ss[0]] && ss[..1][..0] == [];
    assert SpeakerLines(ss).value == [SpeakerLine(ss[0].value), SpeakerLine(ss[1].value)];
    LayoutWithSentences(t, [Header(t)] + SummaryLines(t) + ["Transcript:"]);
  }
}
