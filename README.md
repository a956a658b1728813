# fireflies-raycast, modelled in Dafny

fireflies-raycast is a set of Python scripts around the Fireflies.ai
meeting-transcription service. This project models the following parts:

- **The GraphQL API client** (`fireflies_api.py`). It picks the API key,
  sends a query and classifies the answer into data, a request error or a
  value error. It fetches the recent transcripts or one transcript by id.
  It formats a transcript as plain text: a header, a summary line, then one
  `speaker: text` line per sentence.
- **Three case-study generators.**
  - `generate_case_study_from_domain.py` and `generate_case_study_optimized.py`
    page through the user's transcripts. Each stops at the first meeting
    older than a date cutoff and keeps the meetings that have a participant
    address in a company domain. It then sorts them and builds a prompt text.
    The from-domain generator packs the meeting texts into a budget of
    1,500,000 characters. The optimized one has no character budget; it keeps
    the first 200 sentences of each meeting and at most 10 excerpts.
  - `generate_case_study_enhanced.py` searches instead by known participant
    names among the speakers. It removes repeated meetings by id and builds
    a prompt of keyword-bearing "key points".
- **Two search scripts.** `generate_case_study_by_name.py` searches by
  speaker name. `test_domain_search_fixed.py` searches by domain address.
  Both page the API with a counter cap.
- **The Chrome-tabs fetcher** (`fetch_fireflies_from_chrome_tabs.py`). It
  splits the tab URLs that AppleScript reports. It extracts transcript
  identifiers with a regular expression, which is modelled here as a
  hand-written matcher proved equal to the pattern's semantics. It fetches
  the identifiers in a worker pool, formats what was fetched in tab order
  and joins the texts for the clipboard.

The data model is in `records.dfy`. A JSON field is three-valued: missing,
`null`, or a value. That distinction is what Python's `get(k, d)` and
`get(k) or d` tell apart.

The API is a parameter everywhere:
- a `Server` maps each paging offset to the HTTP exchange it produces;
- `Pages` is what one paging loop sees at each offset.

These are also parameters:
- clock-dependent date tests (`older`, `parse`, `now`, `show`);
- the environment's key (`loaded`);
- the AppleScript output and the per-identifier fetch.

Each loop in the source is a method with loop invariants. Each method is
proved equal to a recursive reference function. Lemmas then prove about
those functions what the scripts promise, for example:
- which meetings are returned and in what order;
- how many queries are sent, and at which offsets;
- when each loop stops, and what each error looks like.

Modules follow the source files. `Text`, `Records`, `Sorting` and `Paging`
are shared. `Emails` and `Cutoff` hold the participant-address extraction
and the cutoff scan that both domain generators share.

## Model

| member | source | states |
|---|---|---|
| FirefliesApi.NewClient | fireflies_api.py:22-64 | A non-empty explicit key wins, otherwise a non-empty loaded key; with neither, construction fails with the "FIREFLIES_API_KEY not set" message; a built client never holds an empty key |
| FirefliesApi.ExplicitKeyIgnoresEnvironment | fireflies_api.py:30-33 | With a non-empty explicit key, the environment cannot change the client, whose key is that key |
| FirefliesApi.Prefix100 | fireflies_api.py:104 | The error detail keeps at most the first 100 characters of the response text, and all of a text of at most 100 |
| FirefliesApi.Messages | fireflies_api.py:113-114 | One message per GraphQL error entry, in order, "Unknown GraphQL error" for an entry without a message key |
| FirefliesApi.ExecuteQuery | fireflies_api.py:66-131 | Sorts every exchange into its outcome: a transport failure is re-raised as a request error, a non-200 status is a ValueError naming the status, an undecodable body is a request error, a body with an `errors` key is a ValueError listing the GraphQL errors |
| FirefliesApi.ExecuteQuerySucceeds | fireflies_api.py:98-119 | A query succeeds exactly for a 200 JSON body without an `errors` key, and then returns its `data` value (none when `data` is missing or null) |
| FirefliesApi.StatusErrorMentionsStatus | fireflies_api.py:98-107 | A non-200 answer always fails with a ValueError whose text starts "API request failed with status N" |
| FirefliesApi.GraphQLErrorJoinsMessages | fireflies_api.py:112-117 | With well-formed entries, the error text is "GraphQL errors: " followed by all messages in order, joined by "; " |
| FirefliesApi.GraphQLErrorExample | fireflies_api.py:112-117 | A single GraphQL error "m" is raised as "GraphQL errors: m" whatever the text and data |
| FirefliesApi.RecentTranscripts | fireflies_api.py:133-180 | Fails exactly when the query fails, with the prefixed message; otherwise the `transcripts` list, [] when there is no data or no key, None when it is null |
| FirefliesApi.TranscriptById | fireflies_api.py:182-227 | Fails exactly when the query fails, with a message naming the id; returns a transcript exactly when `data.transcript` is a non-empty object, and then that object |
| FirefliesApi.SummaryLines | fireflies_api.py:247-251 | There is at most one summary line, and there is one exactly when the summary is an object with a truthy overview |
| FirefliesApi.SpeakerLines | fireflies_api.py:262-270 | The sentence lines exist exactly when no sentence is null, one per sentence in order |
| FirefliesApi.FormatTranscript | fireflies_api.py:229-274 | The method that appends lines one by one produces the text of the formatting function |
| FirefliesApi.AppendSpeakerLines | fireflies_api.py:265-270 | The sentence loop succeeds exactly when no sentence is null, and then appends exactly the sentence lines |
| FirefliesApi.LayoutWithoutSentences | fireflies_api.py:253-260 | A transcript without sentences lays out as its header, its summary line if any, and the still-processing note |
| FirefliesApi.LayoutWithSentences | fireflies_api.py:262-274 | A transcript with sentences lays out as header, summary, "Transcript:" and the sentence lines, or fails as the AttributeError when a sentence is null |
| FirefliesApi.FormatEmpty | fireflies_api.py:240-242 | `None` and the empty object format to ""; they are the only inputs with the empty layout |
| FirefliesApi.FormatStartsWithHeader | fireflies_api.py:244-245 | Unless formatting fails, the text starts with "=== title (date) ===" |
| FirefliesApi.FormatSummaryLine | fireflies_api.py:247-251 | The second line is the summary line exactly when the summary is non-null with a truthy overview |
| FirefliesApi.FormatStillProcessing | fireflies_api.py:253-260 | Without sentences the last line is the processing note and no "Transcript:" line appears |
| FirefliesApi.FormatOneLinePerSentence | fireflies_api.py:262-270 | With sentences, after "Transcript:" there is exactly one line per sentence, in order, and nothing else |
| FirefliesApi.FormatNullSentence | fireflies_api.py:264-274 | A null sentence makes the result "Error formatting transcript: 'NoneType' object has no attribute 'get'" |
| FirefliesApi.FormatExample | fireflies_api.py:244-270 | A titled, dated meeting with an overview and two sentences lays out as the five expected lines |
| Paging.PageOf | generate_case_study_from_domain.py:221-228 | A page is raised exactly when the query failed, with its message; it is a batch exactly when `data.transcripts` is a non-empty list, and then that list; otherwise the loop is exhausted |
| Sorting.SortBy | generate_case_study_from_domain.py:294 | The sort's output is ordered by the key and is a permutation of its input |
| Sorting.SortByStable | generate_case_study_enhanced.py:124 | The sort is stable: elements with equal keys keep their input order, also for the newest-first order |
| Sorting.InsertTies | generate_case_study_from_domain.py:294 | Inserting an element puts it before every element with an equal key |
| Sorting.SortByMembers | generate_case_study_from_domain.py:294 | Sorting neither adds nor drops an element |
| Sorting.InsertSorted | generate_case_study_from_domain.py:294 | Inserting into a sorted list keeps it sorted |
| Sorting.InsertCount | generate_case_study_from_domain.py:294 | Inserting adds exactly one occurrence of the element |
| Sorting.StrLeTotal | generate_case_study_optimized.py:230 | Python string comparison is total |
| Sorting.StrLeTransitive | generate_case_study_optimized.py:230 | Python string comparison is transitive |
| Sorting.KeyLeTotalPreorder | generate_case_study_optimized.py:230 | The order on sort keys (numbers, strings, None) is a total preorder |
| Sorting.ComparableKeysPairwise | generate_case_study_optimized.py:230 | When a sort does not raise, every two of its keys are of one comparable type |
| Emails.NormalizeDomain | generate_case_study_from_domain.py:71-73 | The domain is `lower().strip()` of the input, rejected with "Domain cannot be empty" exactly when nothing is left |
| Emails.NormalizedDomainIsClean | generate_case_study_from_domain.py:71-73 | A normalised domain is non-empty, lower-case, without surrounding whitespace, and normalising it again changes nothing |
| Emails.AtPiecesMembers | generate_case_study_from_domain.py:117 | The kept pieces of a comma-split participant are exactly the stripped pieces containing '@' |
| Emails.AtPiecesShape | generate_case_study_from_domain.py:117 | Each kept piece contains '@', no ',' and no surrounding whitespace |
| Emails.ParticipantAddressesShape | generate_case_study_from_domain.py:112-119 | Every address a participant string contributes contains '@'; a comma-free string contributes itself when it has '@' and nothing otherwise |
| Emails.ParticipantPiecesContribute | generate_case_study_from_domain.py:116-117 | Every '@' piece of a comma-joined participant contributes its stripped form |
| Emails.JoinedParticipant | generate_case_study_from_domain.py:116-117 | The participant "b, c" contributes exactly b and c |
| Emails.FromParticipantsMember | generate_case_study_from_domain.py:112-119 | Every address of every non-null participant string is a candidate |
| Emails.FromAttendeesMember | generate_case_study_from_domain.py:122-125 | Every attendee with a truthy email contributes it |
| Emails.FromUsersMember | generate_case_study_from_domain.py:138-141 | Every truthy user entry containing '@' is a candidate |
| Emails.DedupLowerProperties | generate_case_study_from_domain.py:144 | The final list holds non-empty, lower-case, pairwise distinct addresses, exactly the lower-cased non-empty candidates |
| Emails.DedupDistinctLower | generate_case_study_from_domain.py:144 | Already distinct, lower-case, non-empty addresses pass through the de-duplication unchanged |
| Emails.EmailListProperties | generate_case_study_from_domain.py:99-144 | `extract_participant_emails` returns distinct non-empty lower-case addresses, exactly the lower-cased candidates of the five address fields |
| Emails.EmailListReadsAddressFields | generate_case_study_from_domain.py:99-144 | Only the participants, attendees, host, organizer and user fields affect the extracted addresses |
| Emails.DomainParticipantFromCandidates | generate_case_study_from_domain.py:146-163 | A transcript has a domain participant exactly when some non-empty candidate, lower-cased, ends with "@" + domain |
| Emails.DomainEmails | generate_case_study_optimized.py:247 | The domain participant list holds exactly the extracted addresses in the domain |
| Emails.DomainEmailsNonEmpty | generate_case_study_optimized.py:246-249 | The participants line is non-empty exactly when the transcript has a domain participant |
| Emails.CollectParticipants | generate_case_study_from_domain.py:112-119 | The participants loop appends exactly the participants' contributions, in order |
| Emails.CollectAttendees | generate_case_study_from_domain.py:122-125 | The attendees loop appends exactly the truthy attendee emails |
| Emails.CollectUsers | generate_case_study_from_domain.py:138-141 | The users loop appends exactly the truthy entries with '@' |
| Emails.LowerDistinct | generate_case_study_from_domain.py:144 | The de-duplication loop computes the distinct lower-cased list |
| Emails.ExtractParticipantEmails | generate_case_study_from_domain.py:99-144 | The method computes the extracted address list |
| Emails.IsDomainParticipant | generate_case_study_from_domain.py:146-163 | The method answers true exactly when the transcript has a domain participant |
| Emails.AnyInDomain | generate_case_study_from_domain.py:158-163 | The scan answers true exactly when some address ends with "@" + domain |
| Cutoff.FirstOldProperties | generate_case_study_from_domain.py:234-245 | No transcript before the stopping position is older than the cutoff, and the one at it is |
| Cutoff.NoOldBefore | generate_case_study_from_domain.py:234-245 | Nothing examined before the loop breaks is old |
| Cutoff.KeepDomainMembers | generate_case_study_from_domain.py:250-251 | The kept transcripts are exactly those of the batch with a domain participant |
| Cutoff.BeforeOldAppend | generate_case_study_from_domain.py:231-254 | A batch without an old transcript is examined whole and the scan continues into what follows |
| Cutoff.FirstOldAppend | generate_case_study_from_domain.py:231-254 | The first old transcript of a batch without one is found in what follows it |
| Cutoff.ScanBatchProperties | generate_case_study_from_domain.py:231-254 | A batch keeps only recent domain-participant transcripts of its own, and reports `should_stop` exactly when it holds an old transcript |
| Cutoff.FilterBatch | generate_case_study_from_domain.py:231-254 | The batch loop computes the kept list and the stop flag |
| DomainGenerator.DomainRun | generate_case_study_from_domain.py:186-289 | The paging loop always sends a first query, at its starting offset |
| DomainGenerator.GoOnStep | generate_case_study_from_domain.py:257-284 | When the loop goes on, the next offset is below 600, the batch was full and recent, its domain transcripts were added, and fewer than 20 were found |
| DomainGenerator.StopStep | generate_case_study_from_domain.py:221-259 | When the loop stops successfully, it adds the domain transcripts before the batch's first old one |
| DomainGenerator.DateOrderTotal | generate_case_study_from_domain.py:294-314 | Ordering by parsed date is a total preorder |
| DomainGenerator.FetchDomainMeetings | generate_case_study_from_domain.py:165-296 | The loop (with its lemma calls) computes the reference result |
| DomainGenerator.DomainRunOffsets | generate_case_study_from_domain.py:183-284 | The queries go to skip, skip+30, ..., each below 600 |
| DomainGenerator.DomainQueriesBound | generate_case_study_from_domain.py:182-284 | At most 20 queries are sent, at offsets 0, 30, ..., 570 |
| DomainGenerator.DomainRunFound | generate_case_study_from_domain.py:186-289 | A successful loop returns the domain transcripts, in stream order, among those fetched before the first old one |
| DomainGenerator.WentOnAt | generate_case_study_from_domain.py:257-284 | After any query but the last the loop went on |
| DomainGenerator.DomainRunContinues | generate_case_study_from_domain.py:221-284 | Every query but the last returned a full batch, without an old transcript and with a printable progress line, and fewer than 20 meetings were found after it |
| DomainGenerator.DomainMeetingsProperties | generate_case_study_from_domain.py:165-296 | `fetch_domain_meetings` fails exactly when the loop raised; otherwise it returns exactly the domain transcripts before the first old one, sorted oldest first, each recent with a domain participant |
| DomainGenerator.MeetingTexts | generate_case_study_from_domain.py:341-371 | One text per meeting, in order, each with that meeting's position and printed date |
| DomainGenerator.ConcatLength | generate_case_study_from_domain.py:389 | The content's length is the sum of the fragments' lengths |
| DomainGenerator.PackFromShape | generate_case_study_from_domain.py:373-381 | The packing loop adds meeting texts whole while they fit, and replaces the first that does not by the notice |
| DomainGenerator.PackContent | generate_case_study_from_domain.py:373-389 | The packed content keeps the first texts that fit in 1,500,000 characters, counts exactly their characters and appends the notice exactly when a meeting is left out |
| DomainGenerator.PackKeepsFirst | generate_case_study_from_domain.py:373-389 | Some prefix of the meetings is what the packing keeps |
| DomainGenerator.EarliestAt | generate_case_study_from_domain.py:333 | The start date is the least parsed date |
| DomainGenerator.LatestAt | generate_case_study_from_domain.py:334 | The end date is the greatest parsed date |
| DomainGenerator.Dates | generate_case_study_from_domain.py:332 | One parsed date per meeting, in order |
| DomainGenerator.PrepareFails | generate_case_study_from_domain.py:328-329 | `prepare_for_gemini` fails exactly on an empty list, with "No transcripts to process"; otherwise the metadata names the domain and the number of meetings |
| DomainGenerator.PrepareContent | generate_case_study_from_domain.py:336-397 | The content, `total_chars` and `truncated` describe keeping the first meetings that fit, with the notice for the rest; `truncated` is the corrected flag of Findings row 1, true whenever a meeting was cut |
| DomainGenerator.PrepareDateRange | generate_case_study_from_domain.py:332-334 | The start and end dates print the earliest and the latest meeting date |
| DomainGenerator.TruncatedAsWrittenMissesLast | generate_case_study_from_domain.py:374-397 | As written, the flag is false when only the last meeting did not fit, although the notice was appended |
| DomainGenerator.TruncatedAsWrittenExample | generate_case_study_from_domain.py:374-397 | One meeting with an over-long title: the content is only the notice, and the flag as written is false |
| DomainGenerator.BuildMeetingText | generate_case_study_from_domain.py:343-371 | The loop body builds the meeting text |
| DomainGenerator.AppendSentenceLines | generate_case_study_from_domain.py:362-371 | The sentence loop builds the sentence block |
| DomainGenerator.PackMeetings | generate_case_study_from_domain.py:341-381 | The enumerate loop yields the packing of the meeting texts |
| DomainGenerator.PackTexts | generate_case_study_from_domain.py:373-381 | The budget loop yields the packing of the texts |
| DomainGenerator.PrepareForModel | generate_case_study_from_domain.py:316-402 | The method computes the prepared content and metadata, with the corrected `truncated` flag of Findings row 1 |
| OptimizedGenerator.Search | generate_case_study_optimized.py:143-223 | The search always sends a first query, at its starting offset |
| OptimizedGenerator.SortKeys | generate_case_study_optimized.py:230 | One sort key per transcript, in order |
| OptimizedGenerator.KeyOrderTotal | generate_case_study_optimized.py:230 | The key order is a total preorder |
| OptimizedGenerator.FetchOptimizedMeetings | generate_case_study_optimized.py:129-233 | The method computes `fetch_domain_meetings` |
| OptimizedGenerator.SearchDomain | generate_case_study_optimized.py:137-223 | The paging loop computes the search's result |
| OptimizedGenerator.SearchBatchAt | generate_case_study_optimized.py:144-218 | One pass leaves the search's result unchanged when it goes on, and never moves `skip` backwards |
| OptimizedGenerator.MoreStep | generate_case_study_optimized.py:207-218 | Going on means the next offset is below 150, the batch was full and recent, and its domain transcripts were added |
| OptimizedGenerator.DoneStep | generate_case_study_optimized.py:177-198 | Stopping adds the domain transcripts before the batch's first old one |
| OptimizedGenerator.SearchOffsets | generate_case_study_optimized.py:138-207 | The queries go to skip, skip+10, ..., each below 150 |
| OptimizedGenerator.SearchQueriesBound | generate_case_study_optimized.py:138-207 | At most 15 queries are sent, at offsets 0, 10, ..., 140 |
| OptimizedGenerator.SearchFound | generate_case_study_optimized.py:143-223 | The search returns the domain transcripts, in stream order, fetched before the first old one; a failed query keeps what was found |
| OptimizedGenerator.SearchWentOnAt | generate_case_study_optimized.py:207-218 | After any query but the last, the batch was full and recent |
| OptimizedGenerator.SearchContinues | generate_case_study_optimized.py:177-218 | Nothing more is fetched after an old transcript, an error, or a missing, empty or short batch |
| OptimizedGenerator.SearchStopsAtOld | generate_case_study_optimized.py:193-223 | A batch with an old transcript, or a failed query, is the last |
| OptimizedGenerator.OptimizedMeetingsProperties | generate_case_study_optimized.py:129-233 | [] when nothing is found; a TypeError exactly when two or more are found with keys of mixed types; otherwise the found transcripts sorted by key, each recent with a domain participant |
| OptimizedGenerator.TextsBySnoc | generate_case_study_optimized.py:261-266 | A speaker's segment grows by a spoken sentence of that speaker and by nothing else |
| OptimizedGenerator.GroupProperties | generate_case_study_optimized.py:260-266 | The segments have distinct keys, exactly the speakers of spoken sentences, each with its texts in order |
| OptimizedGenerator.AddSentenceKeeps | generate_case_study_optimized.py:261-266 | One grouping pass keeps the grouping |
| OptimizedGenerator.ExcerptsProperties | generate_case_study_optimized.py:268-278 | At most 10 excerpts, each "- speaker: text" for a spoken sentence longer than 50 characters; a long sentence is left out only when 10 were taken |
| OptimizedGenerator.ExcerptsFull | generate_case_study_optimized.py:271-273 | Once 10 excerpts are taken the remaining speakers add nothing |
| OptimizedGenerator.Blocks | generate_case_study_optimized.py:239-280 | One block per meeting, in order |
| OptimizedGenerator.FramedShape | generate_case_study_optimized.py:280-281 | Each block is followed by an 80-character rule, in order |
| OptimizedGenerator.MeetingInfoProperties | generate_case_study_optimized.py:240-278 | A meeting block holds the title, date and URL lines; the participants line exactly when a domain participant exists; the summary exactly when an overview exists; excerpts exactly when the first 200 sentences are non-empty |
| OptimizedGenerator.PromptAsWrittenFails | generate_case_study_optimized.py:257 | As written, the prompt fails exactly when some meeting has null sentences, and otherwise equals the corrected prompt |
| OptimizedGenerator.NullSentencesExample | generate_case_study_optimized.py:257 | The null-sentences meeting expected to be handled: as written it raises, corrected it shows "Test Meeting" |
| OptimizedGenerator.NullSentencesCase | generate_case_study_optimized.py:257 | Any titled meeting with null sentences: as written it raises, corrected it shows the title |
| OptimizedGenerator.PromptStartsWithTitle | generate_case_study_optimized.py:241 | A prompt for one meeting opens with its "MEETING:" line |
| OptimizedGenerator.GroupSentences | generate_case_study_optimized.py:260-266 | The loop computes the speaker grouping |
| OptimizedGenerator.SelectExcerpts | generate_case_study_optimized.py:268-278 | The two loops with their shared counter compute the excerpts |
| OptimizedGenerator.SpeakerExcerpts | generate_case_study_optimized.py:275-278 | The inner loop adds one speaker's long texts up to the 10-line limit |
| OptimizedGenerator.SentenceExcerpts | generate_case_study_optimized.py:257-278 | The `if sentences:` block computes the excerpt lines |
| OptimizedGenerator.MeetingInfoOf | generate_case_study_optimized.py:240-278 | The method computes one meeting's lines |
| OptimizedGenerator.PrepareForGemini | generate_case_study_optimized.py:235-283 | The method computes the corrected prompt |
| EnhancedGenerator.ParticipantsForProperties | generate_case_study_enhanced.py:23-48 | The participants are the mapped list for the lower-cased, stripped domain, and [] for an unknown one; the case and surrounding whitespace of the domain do not matter, and an empty domain is not rejected |
| EnhancedGenerator.ParticipantSearch | generate_case_study_enhanced.py:83-121 | A participant's search always sends a first query at its starting offset |
| EnhancedGenerator.DateKeys | generate_case_study_enhanced.py:124 | One sort key per meeting, in order |
| EnhancedGenerator.NewestTotal | generate_case_study_enhanced.py:124 | The newest-first order is a total preorder |
| EnhancedGenerator.IdSetMembers | generate_case_study_enhanced.py:108-110 | `seen_ids` holds exactly the ids of the meetings found |
| EnhancedGenerator.AddMeeting | generate_case_study_enhanced.py:108-110 | Adding an unseen matching meeting keeps the invariant |
| EnhancedGenerator.VisitOneKeeps | generate_case_study_enhanced.py:95-112 | One transcript's visit keeps the invariant and only appends |
| EnhancedGenerator.VisitBatchKeeps | generate_case_study_enhanced.py:95-112 | A batch keeps the invariant and only appends |
| EnhancedGenerator.StepKeeps | generate_case_study_enhanced.py:83-121 | One loop pass keeps the invariant and only appends |
| EnhancedGenerator.ParticipantSearchKeeps | generate_case_study_enhanced.py:83-121 | A participant's whole search keeps the invariant and only appends |
| EnhancedGenerator.SearchAllConsistent | generate_case_study_enhanced.py:52-121 | After all participants, ids are present and distinct, `seen_ids` matches, and each meeting has a speaker matching some participant |
| EnhancedGenerator.PermutedDistinct | generate_case_study_enhanced.py:124 | Sorting keeps the ids distinct |
| EnhancedGenerator.EnhancedMeetingsProperties | generate_case_study_enhanced.py:50-125 | A TypeError exactly when the found keys mix types; otherwise the found meetings newest first, ids present and distinct, each with a matching speaker |
| EnhancedGenerator.SearchOffsets | generate_case_study_enhanced.py:79-114 | The queries go to skip, skip+10, ..., each below 300 |
| EnhancedGenerator.ParticipantQueriesBound | generate_case_study_enhanced.py:79-114 | Per participant, at most 30 queries, at offsets 0, 10, ..., 290 |
| EnhancedGenerator.MoreStep | generate_case_study_enhanced.py:114-117 | Going on means a full batch scanned without error and a next offset below 300 |
| EnhancedGenerator.WentOnAt | generate_case_study_enhanced.py:114-117 | After any query but the last the search went on |
| EnhancedGenerator.ParticipantContinues | generate_case_study_enhanced.py:85-121 | The search stops at the first failed query, missing, empty or short batch, or error inside a batch |
| EnhancedGenerator.SpeakerMatches | generate_case_study_enhanced.py:96-106 | The speakers loop answers exactly whether some speaker contains the participant's name, ignoring case |
| EnhancedGenerator.RaisedStays | generate_case_study_enhanced.py:95-112 | After an error inside a batch the rest of the batch is not scanned |
| EnhancedGenerator.ScanBatchFor | generate_case_study_enhanced.py:95-112 | The batch loop computes the batch's visit |
| EnhancedGenerator.SearchParticipant | generate_case_study_enhanced.py:79-121 | The paging loop computes one participant's search |
| EnhancedGenerator.FindMeetingsByParticipants | generate_case_study_enhanced.py:50-125 | The method computes `find_meetings_by_participants`, whose result is sound and complete by EnhancedMeetingsProperties and EnhancedMeetingsComplete |
| EnhancedGenerator.VisitOneSeen | generate_case_study_enhanced.py:97-112 | The loop body puts a matching transcript's id into `seen_ids` unless the id is missing, and never removes one |
| EnhancedGenerator.VisitBatchGrows | generate_case_study_enhanced.py:95-112 | The batch loop never removes an id from `seen_ids` |
| EnhancedGenerator.VisitBatchComplete | generate_case_study_enhanced.py:95-112 | Every matching transcript with an id that the batch loop reaches has its id in `seen_ids` afterwards |
| EnhancedGenerator.StepGrows | generate_case_study_enhanced.py:85-121 | One pass never removes an id from `seen_ids` |
| EnhancedGenerator.ParticipantSearchGrows | generate_case_study_enhanced.py:83-121 | A participant's search never removes an id from `seen_ids` |
| EnhancedGenerator.ParticipantSearchComplete | generate_case_study_enhanced.py:83-121 | A participant's search puts the id of every matching transcript it reaches, in any of its batches, into `seen_ids` |
| EnhancedGenerator.SearchAllGrows | generate_case_study_enhanced.py:50-121 | Searching further participants never removes an id from `seen_ids` |
| EnhancedGenerator.SearchAllComplete | generate_case_study_enhanced.py:50-121 | Every transcript with an id that a participant's search reaches and whose speaker matches that participant has a meeting with its id among those found |
| EnhancedGenerator.EnhancedMeetingsComplete | generate_case_study_enhanced.py:50-125 | "Find all meetings where any of the participants were present": when the sort does not raise, the result holds a meeting with the id of every such reached transcript |
| EnhancedGenerator.Bullets | generate_case_study_enhanced.py:156-157 | One "- point" line per point, in order |
| EnhancedGenerator.PointsSound | generate_case_study_enhanced.py:143-152 | Every discussion point is the text of a spoken sentence with a keyword |
| EnhancedGenerator.PointsComplete | generate_case_study_enhanced.py:143-152 | Every spoken sentence with a keyword is a discussion point |
| EnhancedGenerator.KeyPointsProperties | generate_case_study_enhanced.py:141-157 | At most ten key points, each a keyword sentence among the first hundred; one is left out only when ten were listed |
| EnhancedGenerator.MeetingLinesProperties | generate_case_study_enhanced.py:131-159 | A meeting fails exactly on a missing title (KeyError) or null sentences (TypeError); otherwise title, date, summary exactly with an overview, points exactly when some exist, and the closing rule |
| EnhancedGenerator.FirstSentencesBound | generate_case_study_enhanced.py:141 | The first sentences are the first hundred |
| EnhancedGenerator.ContentFails | generate_case_study_enhanced.py:127-161 | `prepare_for_gemini` fails exactly when some meeting does, with the first one's error |
| EnhancedGenerator.MatchedLines | generate_case_study_enhanced.py:97-141 | A meeting found through a speaker can fail only for a missing title |
| EnhancedGenerator.KeywordIn | generate_case_study_enhanced.py:148-151 | The `any(...)` answers exactly whether the lower-cased text contains a keyword |
| EnhancedGenerator.DiscussionPoints | generate_case_study_enhanced.py:143-152 | The loop computes the discussion points |
| EnhancedGenerator.PointLinesOf | generate_case_study_enhanced.py:142-157 | The method computes the key-point lines |
| EnhancedGenerator.MeetingLinesOf | generate_case_study_enhanced.py:131-159 | The loop body computes one meeting's lines |
| EnhancedGenerator.ContentStays | generate_case_study_enhanced.py:131-161 | Once a meeting raised, the whole call has raised |
| EnhancedGenerator.PrepareForGemini | generate_case_study_enhanced.py:127-161 | The method computes the prompt content |
| EnhancedGenerator.FoundContent | generate_case_study_enhanced.py:127-161 | On meetings the search found, the prompt can fail only with the missing-title error, for one of them |
| EnhancedGenerator.CaseStudyProperties | generate_case_study_enhanced.py:163-185 | No participants gives no case study whatever the API does; no case study exactly when no participant or no meeting; errors are only the unorderable sort or a missing title |
| NameSearch.SpeakersProperties | generate_case_study_by_name.py:52-57 | The speakers are exactly the named speakers, each once |
| NameSearch.FirstMatchProperties | generate_case_study_by_name.py:60-72 | A picked speaker contains the name ignoring case; none is picked only when none does |
| NameSearch.MatchedSpeakerProperties | generate_case_study_by_name.py:52-72 | A transcript matches exactly when one of its speakers contains the name; no sentences never match |
| NameSearch.RecordOf | generate_case_study_by_name.py:62-70 | A record is built exactly when id, title, dateString and transcript_url are all present |
| NameSearch.NameStep | generate_case_study_by_name.py:38-87 | A pass that goes on strictly increases `total_searched` |
| NameSearch.StepCounts | generate_case_study_by_name.py:50-83 | A pass adds its batch's records and counts the batch unless it was interrupted |
| NameSearch.SearchRecords | generate_case_study_by_name.py:38-87 | The records are those of every batch queried, in order; an error keeps what was found |
| NameSearch.SearchTotal | generate_case_study_by_name.py:36-75 | `total_searched` counts every batch handed over except an interrupted last one |
| NameSearch.SearchOffsets | generate_case_study_by_name.py:35-74 | The queries go to skip, skip+limit, ... |
| NameSearch.SearchBelowCap | generate_case_study_by_name.py:38 | Every query is sent while fewer than 500 transcripts were counted |
| NameSearch.SearchContinues | generate_case_study_by_name.py:40-87 | The loop goes on only after a full batch without error |
| NameSearch.RecordOrigins | generate_case_study_by_name.py:50-72 | Each record comes from its own matching transcript of the batch, in batch order, with that transcript's fields and matched speaker |
| NameSearch.NameSearchProperties | generate_case_study_by_name.py:12-90 | From offset 0: records from queried batches in order, the count, one query per step of `limit`, each below 500, and every query but the last a full clean batch |
| NameSearch.CapReached | generate_case_study_by_name.py:38 | At 500 counted transcripts no query is sent |
| NameSearch.SpeakersOf | generate_case_study_by_name.py:52-57 | The speakers loop computes the speaker set |
| NameSearch.MatchOf | generate_case_study_by_name.py:60-72 | The speaker loop finds the first match |
| NameSearch.RaisedStays | generate_case_study_by_name.py:50-72 | After a KeyError the rest of the batch is not scanned |
| NameSearch.ScanBatchFor | generate_case_study_by_name.py:50-72 | The batch loop computes the batch's records |
| NameSearch.NamePass | generate_case_study_by_name.py:39-87 | One pass computes one loop step |
| NameSearch.FindMeetingsByParticipantName | generate_case_study_by_name.py:12-90 | The method returns the records and the count of the search, which are sound by RecordOrigins and complete by FindByNameComplete |
| NameSearch.FirstFailureProperties | generate_case_study_by_name.py:50-72 | No transcript before the first failing record fails, and the one at it does |
| NameSearch.ScanBatchSpec | generate_case_study_by_name.py:50-72 | The batch loop keeps exactly the records of the matching transcripts before the first KeyError, in order, and raises exactly when a record cannot be built |
| NameSearch.RecordedMembers | generate_case_study_by_name.py:60-72 | A record is kept exactly when some matching transcript has it as its record |
| NameSearch.AllRecordsHas | generate_case_study_by_name.py:38-87 | The records of each queried batch are among the records returned |
| NameSearch.NameSearchComplete | generate_case_study_by_name.py:38-87 | Every matching transcript of a queried batch before that batch's first KeyError yields its record in the result |
| NameSearch.FindByNameComplete | generate_case_study_by_name.py:12-90 | "Find meetings where a specific person participated": every transcript of a queried batch, before its first KeyError, with a speaker whose name contains the name ignoring case, is recorded with its id, title, date string, URL and matched speaker |
| DomainSearch.AnyMatchIff | test_domain_search_fixed.py:84 | `domain_found` holds exactly when some address, lower-cased, ends with "@" + the lower-cased domain |
| DomainSearch.MatchHasAt | test_domain_search_fixed.py:84 | A matching address contains '@' |
| DomainSearch.AgreesWithGenerators | test_domain_search_fixed.py:55-84 | The script's test agrees with the generators' `is_domain_participant` on the lower-cased domain |
| DomainSearch.MatchingMembers | test_domain_search_fixed.py:86-87 | The matching transcripts are exactly those that pass the test |
| DomainSearch.ScanPrefix | test_domain_search_fixed.py:53-92 | The scan keeps the matches up to and including the first that cannot be printed |
| DomainSearch.ScanRaises | test_domain_search_fixed.py:86-92 | The scan raises exactly when a matching transcript cannot be printed |
| DomainSearch.StepCounts | test_domain_search_fixed.py:53-106 | A pass adds its meetings, counts its batch unless interrupted, and is interrupted exactly when its scan raised |
| DomainSearch.SearchFound | test_domain_search_fixed.py:42-107 | The meetings are those of every batch queried, in order; an error keeps what was found |
| DomainSearch.SearchTotal | test_domain_search_fixed.py:40-95 | `total_checked` counts every batch handed over but an interrupted last one |
| DomainSearch.SearchOffsets | test_domain_search_fixed.py:39-94 | The queries go to skip, skip+10, ... |
| DomainSearch.SearchBelowLimit | test_domain_search_fixed.py:42 | Every query is sent while fewer than `limit` transcripts were counted |
| DomainSearch.SearchContinues | test_domain_search_fixed.py:44-106 | The loop goes on only after a full batch scanned and reported without error |
| DomainSearch.CleanFound | test_domain_search_fixed.py:53-92 | Batches scanned without error contribute exactly their matching transcripts |
| DomainSearch.DomainSearchProperties | test_domain_search_fixed.py:12-110 | From offset 0: meetings from the batches in order, all the matches when nothing failed to print, the count, the offsets, the cap and the continuation condition |
| DomainSearch.AllFoundMembers | test_domain_search_fixed.py:86-87 | Every meeting a batch contributes passes the test |
| DomainSearch.FindByDomainProperties | test_domain_search_fixed.py:12-110 | Only handed-over transcripts with a domain address are returned and, unless printing one failed, all of them |
| DomainSearch.AllEmailsOf | test_domain_search_fixed.py:55-81 | The method collects `all_emails` |
| DomainSearch.AnyMatches | test_domain_search_fixed.py:84 | The method computes `domain_found` |
| DomainSearch.RaisedStays | test_domain_search_fixed.py:53-92 | After a KeyError the rest of the batch is not scanned |
| DomainSearch.ScanBatchFor | test_domain_search_fixed.py:53-92 | The batch loop computes the scan |
| DomainSearch.DomainPass | test_domain_search_fixed.py:43-106 | One pass computes one loop step |
| DomainSearch.TestDomainSearch | test_domain_search_fixed.py:12-110 | The method returns the meetings and count of the search |
| ChromeTabs.NonEmptyProperties | fetch_fireflies_from_chrome_tabs.py:59 | The filter keeps exactly the non-empty pieces, and all of them when none is empty |
| ChromeTabs.TabUrlsProperties | fetch_fireflies_from_chrome_tabs.py:58-59 | The URLs are the non-empty ", " pieces of the stripped output, none containing ", ", and they join back to it when none is empty |
| ChromeTabs.ValidIdIff | fetch_fireflies_from_chrome_tabs.py:83 | An identifier is ASCII letters and digits with at least one digit |
| ChromeTabs.DropTrailing | fetch_fireflies_from_chrome_tabs.py:83 | Dropping what `/?$` accepts leaves a prefix |
| ChromeTabs.LastDoubleColon | fetch_fireflies_from_chrome_tabs.py:83 | The position found is the last "::" |
| ChromeTabs.IdAfterMarkerSpec | fetch_fireflies_from_chrome_tabs.py:83 | The hand-written matcher captures `x` exactly when the pattern's tail matches with group `x` |
| ChromeTabs.FirstHitNone | fetch_fireflies_from_chrome_tabs.py:86 | The search finds nothing exactly when every start position fails |
| ChromeTabs.FirstHitSome | fetch_fireflies_from_chrome_tabs.py:86 | A found group is that of the leftmost successful start |
| ChromeTabs.ExtractIdNone | fetch_fireflies_from_chrome_tabs.py:86-91 | No identifier exactly when the pattern matches nowhere |
| ChromeTabs.ExtractIdSome | fetch_fireflies_from_chrome_tabs.py:86-88 | A found identifier is captured at the leftmost match, right after the marker |
| ChromeTabs.ExtractIdProperties | fetch_fireflies_from_chrome_tabs.py:83-88 | An identifier is found exactly when the pattern matches; it is valid and is the group of the leftmost match |
| ChromeTabs.NoDigitNoId | fetch_fireflies_from_chrome_tabs.py:82-83 | A URL without a digit gives no identifier |
| ChromeTabs.SlugAndId | fetch_fireflies_from_chrome_tabs.py:81-83 | The old "slug::ID" form captures the identifier after "::", with or without a final "/" |
| ChromeTabs.BareId | fetch_fireflies_from_chrome_tabs.py:81-83 | The new "ID" form captures the identifier, with or without a final "/" |
| ChromeTabs.HttpsUrl | fetch_fireflies_from_chrome_tabs.py:83-86 | Behind "https://" the marker is the first place the pattern can match |
| ChromeTabs.SlugUrl | fetch_fireflies_from_chrome_tabs.py:81-88 | A full old-form tab URL gives the identifier after "::" |
| ChromeTabs.BareUrl | fetch_fireflies_from_chrome_tabs.py:81-88 | A full new-form tab URL gives its identifier |
| ChromeTabs.NoIdExample | fetch_fireflies_from_chrome_tabs.py:86-91 | The dashboard URL gives no identifier |
| ChromeTabs.KeptOrigins | fetch_fireflies_from_chrome_tabs.py:85-92 | Each kept value comes from its own URL in URL order, and every matching URL gives one |
| ChromeTabs.TranscriptIdsOrigins | fetch_fireflies_from_chrome_tabs.py:85-94 | At most one identifier per URL, in URL order, and one for every URL that matches |
| ChromeTabs.TranscriptIdsValid | fetch_fireflies_from_chrome_tabs.py:82-88 | Every identifier is non-empty, letters and digits with a digit |
| ChromeTabs.ExtractTranscriptIds | fetch_fireflies_from_chrome_tabs.py:68-98 | The loop computes the identifier list |
| ChromeTabs.MaxWorkersBounds | fetch_fireflies_from_chrome_tabs.py:140 | One worker per identifier, at most ten, at least one |
| ChromeTabs.FetchTranscripts | fetch_fireflies_from_chrome_tabs.py:122-175 | The keys are exactly the identifiers whose fetch returned a truthy transcript, each stored with it; no identifiers give {} |
| ChromeTabs.FetchedMapIsTranscriptsMap | fetch_fireflies_from_chrome_tabs.py:145-170 | The map the loop builds is the reference map |
| ChromeTabs.ClientFetchKeys | fetch_fireflies_from_chrome_tabs.py:151-161 | Through the client, an identifier is a key exactly when its query returned a non-empty transcript, which is stored |
| ChromeTabs.AsWrittenFetchesNothing | fetch_fireflies_from_chrome_tabs.py:151-167 | As written, the fetched map is always empty |
| ChromeTabs.FormattedOrigins | fetch_fireflies_from_chrome_tabs.py:254-261 | The texts follow the identifiers' order, one per fetched identifier, and each is that transcript's formatting |
| ChromeTabs.FormattedEmpty | fetch_fireflies_from_chrome_tabs.py:254-269 | No text exactly when no identifier was fetched |
| ChromeTabs.SomeFetchedIff | fetch_fireflies_from_chrome_tabs.py:254-269 | Some text exactly when some identifier's fetch succeeded |
| ChromeTabs.CollectTexts | fetch_fireflies_from_chrome_tabs.py:254-261 | The loop computes the formatted texts |
| ChromeTabs.CombinedStarts | fetch_fireflies_from_chrome_tabs.py:273 | The final text starts with a blank line and the first transcript |
| ChromeTabs.CombinedAppend | fetch_fireflies_from_chrome_tabs.py:273 | Each further transcript adds a blank line and itself |
| ChromeTabs.FlyCastProperties | fetch_fireflies_from_chrome_tabs.py:199-273 | With tabs read and a client made, text is copied exactly when some identifier was fetched, and it is the joined formatted transcripts in tab order |
| ChromeTabs.FlyCastOutput | fetch_fireflies_from_chrome_tabs.py:199-273 | Text is copied only after the tabs were read and a client made, and it starts with the blank line |
| ChromeTabs.AsWrittenFlyCastFails | fetch_fireflies_from_chrome_tabs.py:240-269 | As written, `main` ends with "Failed to fetch any transcripts" whenever it reaches fetching |
| ChromeTabs.FetchFromChromeTabs | fetch_fireflies_from_chrome_tabs.py:177-273 | The method computes `main` up to the clipboard |
| Text.Lower | generate_case_study_from_domain.py:144 | `lower()` keeps the length, maps each character and yields lower-case text |
| Text.LowerKeepsAt | test_domain_search_fixed.py:84 | Lower-casing neither creates nor removes an '@' |
| Text.Strip | generate_case_study_from_domain.py:117 | `strip()` gives the middle part of the text, without surrounding whitespace, having dropped only whitespace |
| Text.StripIdempotent | generate_case_study_from_domain.py:71 | Stripping twice is stripping once |
| Text.IndexOfFirst | generate_case_study_from_domain.py:117 | `find` gives the first occurrence, and -1 only when there is none |
| Text.SplitJoin | generate_case_study_from_domain.py:117 | Joining the pieces of a split with its separator gives back the text |
| Text.SplitPiecesFree | generate_case_study_from_domain.py:117 | No piece of a split contains the separator |
| Text.NatToStringValue | fireflies_api.py:99 | `str(n)` reads back as `n` |
| Text.Take | generate_case_study_optimized.py:257 | A slice `[:n]` keeps the first `n` elements, or all of a shorter list |

## Left out

- HTTP, JSON decoding and `requests` are left out. The exchange each query produces is a parameter (`Exchange`, `Server`).
- The `.env` and environment loading of the key is left out. The loaded key is a parameter.
- The Gemini requests, their prompt wording and `generate_case_study` beyond the content it sends are not modelled. They call an outside service.
- Clipboard, `pyperclip`, `osascript`, `attempt_paste`, `argparse`, logging, printing and exit codes are left out. Printing appears only where it raises, as in the progress lines and the KeyError prints.
- `_load_domain_mapping` reads a JSON file. The mapping is a parameter.
- Clock time and `datetime` parsing are not modelled. The cutoff test, date parsing (`_parse_date`), the current time and `strftime` are parameters (`older`, `parse`, `now`, `show`). The mix of aware and naive datetimes in the from-domain sort is not modelled either.
- ChromeTabs.FetchTranscripts: fetches in list order, not with the thread pool's `as_completed` order. Each identifier's result is a fixed function of it, so the map is the same.
- ChromeTabs.ClientFetch: calls `get_transcript_by_id` with the identifier alone. There is no `timeout` parameter, neither in the client nor in the model; the `timeout=60` keyword at fetch_fireflies_from_chrome_tabs.py:151 appears only in Findings.
- A `requests.Session`, timestamp prefixes and other behaviour that only the test files expect are not modelled. The client code has none of them.
- ChromeTabs.FetchTranscripts: does not model the outer `except` that returns {}. Nothing inside it raises once the fetch results are given.
- Text.Lower: ASCII case mapping only. `Text.Strip` removes ASCII whitespace only. Unicode case folding and whitespace are not modelled.
- ChromeTabs.ExtractId: implements Python `re` semantics for this one pattern on the text. Unicode details of `re` are not modelled.
- Emails.DedupLower: keeps first occurrences. Python's `list(set(...))` order is unspecified.
- Sorting.Unorderable: the TypeError text leaves out the type names that Python's message includes.
- DomainGenerator.PackTexts: the source builds and packs each meeting text in one `enumerate` loop (generate_case_study_from_domain.py:341-381). The model uses two loops: `PackMeetings` first builds every meeting text, then `PackTexts` packs them. The two agree because building a text has no side effect and the texts after the cut are discarded. Characters are counted as Dafny sequence lengths.
- DomainGenerator.PrepareForModel: the metadata's `truncated` is the corrected flag of Findings row 1, true whenever a meeting was cut. The flag as written at generate_case_study_from_domain.py:397 is `TruncatedAsWritten`, which differs only when the last meeting alone was cut.
- NameSearch.MatchedSpeaker: the source loops over a `set` of speakers (generate_case_study_by_name.py:52-59), so when several speakers match, which one is recorded as `matched_speaker` is unspecified. The model records the first matching speaker in order of first appearance. Whether a transcript matches does not depend on this choice.
- Paging.PageOf: the entries of `data.transcripts` are assumed to be transcript objects, never null. A null entry would raise AttributeError in every loop body; the API's typed list does not return one.
- NameSearch.FindMeetingsByParticipantName and DomainSearch.TestDomainSearch: `limit` is a `nat`. Negative limits are not modelled.

## Findings

| source | as written | input that shows it | evidently intended | confidence | as-written member | corrected member |
|---|---|---|---|---|---|---|
| generate_case_study_from_domain.py:397 | `truncated` is `len(formatted_transcripts) < len(transcripts)`. When the last meeting does not fit, its notice takes its place in the list, so the count matches and the flag is false | One meeting whose title has 1,500,001 characters | `truncated` is true whenever a meeting was left out for length | not executed | DomainGenerator.TruncatedAsWrittenMissesLast | DomainGenerator.PrepareContent |
| generate_case_study_optimized.py:257 | `transcript.get('sentences', [])[:200]` raises TypeError when `sentences` is null | A meeting titled "Test Meeting" with `sentences` null; tests/test_generate_case_study_optimized.py:168-180 expects it to succeed | A null sentence list counts as empty | not executed | OptimizedGenerator.PromptAsWrittenFails | OptimizedGenerator.MeetingInfoProperties |
| fetch_fireflies_from_chrome_tabs.py:151 | `get_transcript_by_id` is called with `timeout=60`, a parameter it does not have (fireflies_api.py:182). Every future raises TypeError, which the handler at line 166 logs | Any non-empty identifier list | The fetch calls `get_transcript_by_id(transcript_id)` | not executed | ChromeTabs.AsWrittenFetchesNothing | ChromeTabs.ClientFetchKeys |
