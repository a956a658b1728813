/** `OptimizedCaseStudyGenerator` (generate_case_study_optimized.py): the
    same domain search as the domain generator with smaller pages, a scan
    ceiling of 150 transcripts, errors that end the search quietly, a sort on
    the raw `date` / `dateString` fields, and a prompt made of per-speaker
    excerpts. */
module OptimizedGenerator {
  import opened Wrappers
  import opened Text
  import opened Records
  import opened Sorting
  import opened FirefliesApi
  import opened Paging
  import opened Emails
  import opened Cutoff

  // ----- fetch_domain_meetings -----

  const Limit := 10
  const MaxToCheck := 150

  /** What one pass of the loop body decides: leave the loop, or go on with
      the next offset, with the transcripts found so far. */
  datatype Next = Done(found: seq<Transcript>) | More(found: seq<Transcript>)

  /** One pass of the `while skip < max_to_check` body. A raising query, a
      missing or empty batch end the loop with what was found; an old
      transcript forces `skip` to 150, which ends it too. */
  function SearchStep(pages: Pages, domain: string, older: Older, skip: nat, acc: seq<Transcript>): Next
  {
    match pages(skip)
    case Raised(_) => Done(acc)
    case Exhausted => Done(acc)
    case Batch(items) =>
      var sc := ScanBatch(items, domain, older);
      var found := acc + sc.kept;
      if sc.hitOld || |items| < Limit || skip + Limit >= MaxToCheck then Done(found)
      else More(found)
  }

  /** The transcripts a search found and the offsets it queried. */
  datatype Searched = Searched(found: seq<Transcript>, queries: seq<nat>)

  function Search(pages: Pages, domain: string, older: Older, skip: nat, acc: seq<Transcript>): (r: Searched)
    requires skip < MaxToCheck
    ensures |r.queries| >= 1 && r.queries[0] == skip
    decreases MaxToCheck - skip
  {
    match SearchStep(pages, domain, older, skip, acc)
    case Done(found) => Searched(found, [skip])
    case More(found) =>
      if skip + Limit < MaxToCheck then
        var rest := Search(pages, domain, older, skip + Limit, found);
        Searched(rest.found, [skip] + rest.queries)
      else Searched(found, [skip])
  }

  /** The sort key `x.get('date', '') or x.get('dateString', '')`: a non-zero
      timestamp, else the `dateString` (`''` when missing, `None` when null). */
  function SortKey(t: Transcript): DateKey
  {
    if t.date.Val? && t.date.value != 0 then Stamp(t.date.value)
    else match t.dateString
      case Absent => Label("")
      case Null => NoKey
      case Val(s) => Label(s)
  }

  function SortKeys(ts: seq<Transcript>): (ks: seq<DateKey>)
    ensures |ks| == |ts| && forall i :: 0 <= i < |ts| ==> ks[i] == SortKey(ts[i])
  {
    seq(|ts|, i requires 0 <= i < |ts| => SortKey(ts[i]))
  }

  function KeyOrder(): (Transcript, Transcript) -> bool
  {
    (a: Transcript, b: Transcript) => KeyLe(SortKey(a), SortKey(b))
  }

  lemma KeyOrderTotal()
    ensures TotalPreorder(KeyOrder())
  {
    KeyLeTotalPreorder();
  }

  /** `fetch_domain_meetings`: nothing found gives `[]`; otherwise the found
      transcripts sorted by their key, which raises when keys of different
      types meet. */
  function OptimizedMeetings(server: Server, domain: string, older: Older): Result<seq<Transcript>, string>
  {
    var found := Search(PagesOf(server), domain, older, 0, []).found;
    KeyOrderTotal();
    if found == [] then Success([])
    else if !SortKeysComparable(SortKeys(found)) then Failure(Unorderable)
    else Success(SortBy(found, KeyOrder()))
  }

  method FetchOptimizedMeetings(server: Server, domain: string, older: Older) returns (r: Result<seq<Transcript>, string>)
    ensures r == OptimizedMeetings(server, domain, older)
  {
    var all := SearchDomain(server, domain, older);
    if |all| == 0 {
      return Success([]);
    }
    var keys := SortKeys(all);
    if !SortKeysComparable(keys) {
      return Failure(Unorderable);
    }
    KeyOrderTotal();
    r := Success(SortBy(all, KeyOrder()));
  }

  /** The paging loop of `fetch_domain_meetings`. */
  method SearchDomain(server: Server, domain: string, older: Older) returns (all: seq<Transcript>)
    ensures all == Search(PagesOf(server), domain, older, 0, []).found
  {
    ghost var pages := PagesOf(server);
    ghost var target := Search(pages, domain, older, 0, []).found;
    all := [];
    var skip: nat := 0;
    while skip < MaxToCheck
      invariant skip <= MaxToCheck + Limit
      invariant skip < MaxToCheck ==> Search(pages, domain, older, skip, all).found == target
      invariant skip >= MaxToCheck ==> all == target
      decreases MaxToCheck + Limit - skip
    {
      var stop;
      all, skip, stop := SearchBatchAt(server, domain, older, skip, all);
      if stop {
        break;
      }
    }
  }

  /** One pass of the loop body: the query at `skip`, the scan of its batch
      and the new `skip`; `stop` is a `break`. */
  method SearchBatchAt(server: Server, domain: string, older: Older, skip: nat, acc: seq<Transcript>)
    returns (all: seq<Transcript>, next: nat, stop: bool)
    requires skip < MaxToCheck
    ensures stop || next >= MaxToCheck ==> all == Search(PagesOf(server), domain, older, skip, acc).found
    ensures !stop && next < MaxToCheck ==>
              Search(PagesOf(server), domain, older, next, all).found
              == Search(PagesOf(server), domain, older, skip, acc).found
    ensures next <= MaxToCheck + Limit && (!stop ==> next > skip)
  {
    ghost var pages := PagesOf(server);
    var page := PageOf(ExecuteQuery(server(skip)));
    if !page.Batch? {
      SearchDone(pages, domain, older, skip, acc);
      return acc, skip, true;
    }
    var batch := page.items;
    var kept, hitOld := FilterBatch(batch, domain, older);
    all := acc + kept;
    next := skip;
    if hitOld {
      next := MaxToCheck;
    }
    next := next + Limit;
    stop := |batch| < Limit;
    if SearchStep(pages, domain, older, skip, acc).Done? {
      SearchDone(pages, domain, older, skip, acc);
    } else {
      SearchMore(pages, domain, older, skip, acc);
    }
  }

  lemma SearchDone(pages: Pages, domain: string, older: Older, skip: nat, acc: seq<Transcript>)
    requires skip < MaxToCheck
    requires SearchStep(pages, domain, older, skip, acc).Done?
    ensures Search(pages, domain, older, skip, acc).found == SearchStep(pages, domain, older, skip, acc).found
  {
  }

  lemma SearchMore(pages: Pages, domain: string, older: Older, skip: nat, acc: seq<Transcript>)
    requires skip < MaxToCheck
    requires SearchStep(pages, domain, older, skip, acc).More?
    ensures skip + Limit < MaxToCheck
    ensures pages(skip).Batch? && |pages(skip).items| >= Limit && !ScanBatch(pages(skip).items, domain, older).hitOld
    ensures Search(pages, domain, older, skip, acc).found
            == Search(pages, domain, older, skip + Limit, SearchStep(pages, domain, older, skip, acc).found).found
  {
  }

  /** Going on means the next offset is below 150 and the batch was full
      with no old transcript. */
  predicate FullRecentBatch(pages: Pages, q: nat, older: Older)
  {
    var p := pages(q);
    p.Batch? && |p.items| >= Limit && FirstOld(p.items, older) == |p.items|
  }

  lemma MoreStep(pages: Pages, domain: string, older: Older, skip: nat, acc: seq<Transcript>)
    requires SearchStep(pages, domain, older, skip, acc).More?
    ensures skip + Limit < MaxToCheck
    ensures FullRecentBatch(pages, skip, older)
    ensures SearchStep(pages, domain, older, skip, acc).found == acc + KeepDomain(pages(skip).items, domain)
  {
    var items := pages(skip).items;
    assert FirstOld(items, older) == |items|;
    assert items[..|items|] == items;
    assert BeforeOld(items, older) == items;
  }

  lemma DoneStep(pages: Pages, domain: string, older: Older, skip: nat, acc: seq<Transcript>)
    requires SearchStep(pages, domain, older, skip, acc).Done?
    ensures SearchStep(pages, domain, older, skip, acc).found
            == acc + KeepDomain(BeforeOld(PageItems(pages(skip)), older), domain)
  {
    if !pages(skip).Batch? {
      assert PageItems(pages(skip)) == [];
      assert BeforeOld([], older) == [];
    }
  }

  /** The search from `skip` queries skip, skip+10, ..., the last below 150. */
  predicate OffsetsFrom(pages: Pages, domain: string, older: Older, skip: nat, acc: seq<Transcript>)
    requires skip < MaxToCheck
  {
    var qs := Search(pages, domain, older, skip, acc).queries;
    SteppedFrom(qs, skip, Limit) && skip + Limit * (|qs| - 1) < MaxToCheck
  }

  lemma {:induction false} SearchOffsets(pages: Pages, domain: string, older: Older, skip: nat, acc: seq<Transcript>)
    requires skip < MaxToCheck
    ensures OffsetsFrom(pages, domain, older, skip, acc)
    decreases MaxToCheck - skip
  {
    var st := SearchStep(pages, domain, older, skip, acc);
    if st.More? && skip + Limit < MaxToCheck {
      SearchOffsets(pages, domain, older, skip + Limit, st.found);
      OffsetsAfterMore(pages, domain, older, skip, acc);
    } else {
      LastQuery(pages, domain, older, skip, acc);
    }
  }

  /** A pass that does not go on to a further offset is the last, and the
      offsets are then just `[skip]`. */
  lemma LastQuery(pages: Pages, domain: string, older: Older, skip: nat, acc: seq<Transcript>)
    requires skip < MaxToCheck
    requires !(SearchStep(pages, domain, older, skip, acc).More? && skip + Limit < MaxToCheck)
    ensures OffsetsFrom(pages, domain, older, skip, acc)
  {
    var qs := Search(pages, domain, older, skip, acc).queries;
    assert qs == [skip];
  }

  lemma OffsetsAfterMore(pages: Pages, domain: string, older: Older, skip: nat, acc: seq<Transcript>)
    requires skip + Limit < MaxToCheck
    requires SearchStep(pages, domain, older, skip, acc).More?
    requires OffsetsFrom(pages, domain, older, skip + Limit, SearchStep(pages, domain, older, skip, acc).found)
    ensures OffsetsFrom(pages, domain, older, skip, acc)
  {
    var st := SearchStep(pages, domain, older, skip, acc);
    var rest := Search(pages, domain, older, skip + Limit, st.found);
    var r := Search(pages, domain, older, skip, acc);
    assert r.queries == [skip] + rest.queries;
    SteppedCons(rest.queries, skip, Limit);
  }

  /** At most 15 queries are issued, at the offsets 0, 10, ..., 140. */
  lemma SearchQueriesBound(pages: Pages, domain: string, older: Older)
    ensures var qs := Search(pages, domain, older, 0, []).queries;
            1 <= |qs| <= MaxToCheck / Limit && Stepped(qs, Limit)
            && forall k :: 0 <= k < |qs| ==> qs[k] < MaxToCheck
  {
    SearchOffsets(pages, domain, older, 0, []);
    assert OffsetsFrom(pages, domain, older, 0, []);
  }

  /** What the search from `skip` with `acc` found. */
  predicate FoundAll(pages: Pages, domain: string, older: Older, skip: nat, acc: seq<Transcript>)
    requires skip < MaxToCheck
  {
    var r := Search(pages, domain, older, skip, acc);
    r.found == acc + KeepDomain(BeforeOld(Stream(pages, r.queries), older), domain)
  }

  /** The search returns the domain-participant transcripts, in stream order,
      among those fetched before the first one older than the cutoff; a
      query that raised contributes nothing and keeps what was found. */
  lemma {:induction false} SearchFound(pages: Pages, domain: string, older: Older, skip: nat, acc: seq<Transcript>)
    requires skip < MaxToCheck
    ensures FoundAll(pages, domain, older, skip, acc)
    decreases MaxToCheck - skip
  {
    var st := SearchStep(pages, domain, older, skip, acc);
    if st.Done? {
      FoundAtDone(pages, domain, older, skip, acc);
    } else {
      FoundAfterMore(pages, domain, older, skip, acc);
      SearchFound(pages, domain, older, skip + Limit, st.found);
    }
  }

  lemma FoundAtDone(pages: Pages, domain: string, older: Older, skip: nat, acc: seq<Transcript>)
    requires skip < MaxToCheck
    requires SearchStep(pages, domain, older, skip, acc).Done?
    ensures FoundAll(pages, domain, older, skip, acc)
  {
    var st := SearchStep(pages, domain, older, skip, acc);
    var r := Search(pages, domain, older, skip, acc);
    assert r == Searched(st.found, [skip]);
    StreamOne(pages, skip);
    DoneStep(pages, domain, older, skip, acc);
  }

  lemma FoundAfterMore(pages: Pages, domain: string, older: Older, skip: nat, acc: seq<Transcript>)
    requires skip < MaxToCheck
    requires SearchStep(pages, domain, older, skip, acc).More?
    ensures skip + Limit < MaxToCheck
    ensures FoundAll(pages, domain, older, skip + Limit, SearchStep(pages, domain, older, skip, acc).found)
            ==> FoundAll(pages, domain, older, skip, acc)
  {
    MoreStep(pages, domain, older, skip, acc);
    var st := SearchStep(pages, domain, older, skip, acc);
    var items := pages(skip).items;
    var rest := Search(pages, domain, older, skip + Limit, st.found);
    var r := Search(pages, domain, older, skip, acc);
    assert r == Searched(rest.found, [skip] + rest.queries);
    StreamCons(pages, skip, rest.queries);
    assert PageItems(pages(skip)) == items;
    FoundStep(items, Stream(pages, rest.queries), acc, domain, older);
  }

  /** The search went on after its `k`-th query unless that was its last. */
  lemma {:induction false} SearchWentOnAt(pages: Pages, domain: string, older: Older, skip: nat, acc: seq<Transcript>, k: nat)
    requires skip < MaxToCheck
    requires k < |Search(pages, domain, older, skip, acc).queries| - 1
    ensures FullRecentBatch(pages, Search(pages, domain, older, skip, acc).queries[k], older)
    decreases MaxToCheck - skip
  {
    var qs := Search(pages, domain, older, skip, acc).queries;
    var st := SearchStep(pages, domain, older, skip, acc);
    if st.Done? {
      DoneQueries(pages, domain, older, skip, acc);
      assert false;
    } else {
      MoreStep(pages, domain, older, skip, acc);
      var rest := MoreQueries(pages, domain, older, skip, acc);
      if k > 0 {
        SearchWentOnAt(pages, domain, older, skip + Limit, st.found, k - 1);
        assert qs[k] == rest[k - 1];
      }
    }
  }

  lemma DoneQueries(pages: Pages, domain: string, older: Older, skip: nat, acc: seq<Transcript>)
    requires skip < MaxToCheck
    requires SearchStep(pages, domain, older, skip, acc).Done?
    ensures |Search(pages, domain, older, skip, acc).queries| == 1
  {
  }

  lemma MoreQueries(pages: Pages, domain: string, older: Older, skip: nat, acc: seq<Transcript>) returns (rest: seq<nat>)
    requires skip + Limit < MaxToCheck
    requires SearchStep(pages, domain, older, skip, acc).More?
    ensures rest == Search(pages, domain, older, skip + Limit, SearchStep(pages, domain, older, skip, acc).found).queries
    ensures Search(pages, domain, older, skip, acc).queries == [skip] + rest
  {
    rest := Search(pages, domain, older, skip + Limit, SearchStep(pages, domain, older, skip, acc).found).queries;
  }

  /** Every query but the last returned a full batch with no old transcript:
      once a transcript is known to be older than the cutoff, or a query
      raises, or a batch is missing, empty or short, nothing more is fetched. */
  lemma SearchContinues(pages: Pages, domain: string, older: Older)
    ensures var qs := Search(pages, domain, older, 0, []).queries;
            forall k :: 0 <= k < |qs| - 1 ==> FullRecentBatch(pages, qs[k], older)
  {
    var qs := Search(pages, domain, older, 0, []).queries;
    forall k | 0 <= k < |qs| - 1 ensures FullRecentBatch(pages, qs[k], older) {
      SearchWentOnAt(pages, domain, older, 0, [], k);
    }
  }

  /** A batch holding an old transcript, or a query that raised, is the
      search's last. */
  lemma SearchStopsAtOld(pages: Pages, domain: string, older: Older, k: nat)
    requires var qs := Search(pages, domain, older, 0, []).queries;
             k < |qs| && (pages(qs[k]).Raised?
                          || (pages(qs[k]).Batch? && exists j :: 0 <= j < |pages(qs[k]).items| && IsOld(pages(qs[k]).items[j], older)))
    ensures k == |Search(pages, domain, older, 0, []).queries| - 1
  {
    var qs := Search(pages, domain, older, 0, []).queries;
    if k < |qs| - 1 {
      SearchWentOnAt(pages, domain, older, 0, [], k);
      FirstOldProperties(pages(qs[k]).items, older);
    }
  }

  /** `fetch_domain_meetings` as a whole: `[]` when nothing was found; a
      TypeError exactly when two or more transcripts were found and their
      keys mix types; otherwise the found transcripts sorted by key (a
      stable sort), each a recent domain-participant transcript. */
  lemma OptimizedMeetingsProperties(server: Server, domain: string, older: Older)
    ensures var s := Search(PagesOf(server), domain, older, 0, []);
            var r := OptimizedMeetings(server, domain, older);
            (s.found == [] ==> r == Success([]))
            && (r.Failure? <==> |s.found| >= 2 && !SortKeysComparable(SortKeys(s.found)))
            && (r.Failure? ==> r.error == Unorderable)
            && (r.Success? ==>
                  SortedBy(r.value, KeyOrder())
                  && multiset(r.value) == multiset(s.found)
                  && s.found == KeepDomain(BeforeOld(Stream(PagesOf(server), s.queries), older), domain)
                  && forall t :: t in r.value ==> HasDomainParticipant(t, domain) && !IsOld(t, older))
  {
    var pages := PagesOf(server);
    var s := Search(pages, domain, older, 0, []);
    var r := OptimizedMeetings(server, domain, older);
    SearchFound(pages, domain, older, 0, []);
    assert FoundAll(pages, domain, older, 0, []);
    var b := BeforeOld(Stream(pages, s.queries), older);
    assert s.found == KeepDomain(b, domain);
    if r.Success? {
      KeepDomainMembers(b, domain);
      NoOldBefore(Stream(pages, s.queries), older);
      forall t | t in r.value ensures HasDomainParticipant(t, domain) && !IsOld(t, older) {
        if s.found != [] {
          assert t in multiset(r.value);
        }
        assert t in s.found;
      }
    }
  }

  // ----- prepare_for_gemini -----

  const MaxSentences := 200
  const MaxExcerpts := 10
  /** Only statements longer than this many characters become excerpts. */
  const MinExcerptLength := 50
  const Separator := "\n" + Repeat('=', 80) + "\n"

  /** The sentences the excerpts are drawn from: the first 200. A null
      `sentences` field counts as an empty list (see `WindowAsWritten`). */
  function Window(t: Transcript): seq<Option<Sentence>>
  {
    Take(Items(t.sentences), MaxSentences)
  }

  /** `transcript.get('sentences', [])[:200]` as written: slicing a null
      field raises a TypeError. */
  function WindowAsWritten(t: Transcript): (r: Result<seq<Option<Sentence>>, string>)
  {
    match t.sentences
    case Absent => Success([])
    case Null => Failure(NotSubscriptable)
    case Val(ss) => Success(Take(ss, MaxSentences))
  }

  /** The dict key `sentence.get('speaker_name', 'Unknown')`: `None` for a
      null speaker, which is a key of its own. */
  function SpeakerOf(s: Sentence): Option<string>
  {
    match s.speakerName
    case Absent => Some("Unknown")
    case Null => None
    case Val(n) => Some(n)
  }

  /** How a speaker key prints in an f-string. */
  function ShowSpeaker(k: Option<string>): string
  {
    if k.Some? then k.value else "None"
  }

  /** Reference definition of one speaker's segment: the texts of the spoken
      sentences under key `k`, in order. */
  function TextsBy(ss: seq<Option<Sentence>>, k: Option<string>): seq<string>
  {
    if ss == [] then []
    else
      var s := ss[|ss| - 1];
      TextsBy(ss[..|ss| - 1], k) + (if Spoken(s) && SpeakerOf(s.value) == k then [s.value.text.value] else [])
  }

  lemma TextsBySnoc(ss: seq<Option<Sentence>>, k: Option<string>)
    requires ss != []
    ensures var s := ss[|ss| - 1];
            if Spoken(s) && SpeakerOf(s.value) == k then TextsBy(ss, k) == TextsBy(ss[..|ss| - 1], k) + [s.value.text.value]
            else TextsBy(ss, k) == TextsBy(ss[..|ss| - 1], k)
  {
    var s := ss[|ss| - 1];
    if !(Spoken(s) && SpeakerOf(s.value) == k) {
      assert TextsBy(ss, k) == TextsBy(ss[..|ss| - 1], k) + [];
    }
  }

  /** `speaker_segments`: a dict, with its keys in insertion order. */
  datatype Segments = Segments(order: seq<Option<string>>, texts: map<Option<string>, seq<string>>)

  /** One pass of the grouping loop: a new speaker gets an empty list, then
      the sentence's text is appended to its speaker's list. */
  function AddSentence(g: Segments, s: Option<Sentence>): Segments
  {
    if !Spoken(s) then g
    else
      var k := SpeakerOf(s.value);
      var g1 := if k in g.texts then g else Segments(g.order + [k], g.texts[k := []]);
      Segments(g1.order, g1.texts[k := g1.texts[k] + [s.value.text.value]])
  }

  function Group(ss: seq<Option<Sentence>>): Segments
  {
    if ss == [] then Segments([], map[]) else AddSentence(Group(ss[..|ss| - 1]), ss[|ss| - 1])
  }

  /** `g` groups `ss` by speaker: its keys are distinct, they are exactly the
      speakers of spoken sentences, and each holds that speaker's texts. */
  ghost predicate GroupOf(ss: seq<Option<Sentence>>, g: Segments)
  {
    (forall i, j :: 0 <= i < j < |g.order| ==> g.order[i] != g.order[j])
    && (forall k :: k in g.texts <==> k in g.order)
    && (forall k :: k in g.texts ==> g.texts[k] == TextsBy(ss, k))
    && (forall k :: k in g.texts <==> TextsBy(ss, k) != [])
  }

  lemma {:induction false} GroupProperties(ss: seq<Option<Sentence>>)
    ensures GroupOf(ss, Group(ss))
  {
    if ss != [] {
      GroupProperties(ss[..|ss| - 1]);
      AddSentenceKeeps(ss, Group(ss[..|ss| - 1]));
    }
  }

  /** One pass of the grouping loop keeps the grouping. */
  lemma AddSentenceKeeps(ss: seq<Option<Sentence>>, g: Segments)
    requires ss != [] && GroupOf(ss[..|ss| - 1], g)
    ensures GroupOf(ss, AddSentence(g, ss[|ss| - 1]))
  {
    if Spoken(ss[|ss| - 1]) {
      SpokenKeeps(ss, g);
    } else {
      forall k ensures TextsBy(ss, k) == TextsBy(ss[..|ss| - 1], k) {
        TextsBySnoc(ss, k);
      }
    }
  }

  lemma SpokenKeeps(ss: seq<Option<Sentence>>, g: Segments)
    requires ss != [] && GroupOf(ss[..|ss| - 1], g) && Spoken(ss[|ss| - 1])
    ensures GroupOf(ss, AddSentence(g, ss[|ss| - 1]))
  {
    var s := ss[|ss| - 1];
    var k := SpeakerOf(s.value);
    var t := s.value.text.value;
    var h := AddSentence(g, s);
    if k in g.texts {
      assert h == Segments(g.order, g.texts[k := g.texts[k] + [t]]);
    } else {
      assert h.order == g.order + [k];
      assert [] + [t] == [t];
      assert h.texts == g.texts[k := [t]];
    }
    SegmentsStep(ss, g, h, k, t);
  }

  /** The grouping of `ss` from that of all but its last sentence, spoken by
      `k` with text `t`, for a speaker seen before or a new one. */
  lemma SegmentsStep(ss: seq<Option<Sentence>>, g: Segments, h: Segments, k: Option<string>, t: string)
    requires ss != [] && GroupOf(ss[..|ss| - 1], g)
    requires Spoken(ss[|ss| - 1]) && k == SpeakerOf(ss[|ss| - 1].value) && t == ss[|ss| - 1].value.text.value
    requires k in g.texts ==> h == Segments(g.order, g.texts[k := g.texts[k] + [t]])
    requires k !in g.texts ==> h.order == g.order + [k] && h.texts == g.texts[k := [t]]
    ensures GroupOf(ss, h)
  {
    var init := ss[..|ss| - 1];
    TextsBySnoc(ss, k);
    forall k' | k' != k ensures TextsBy(ss, k') == TextsBy(init, k') {
      TextsBySnoc(ss, k');
    }
    if k !in g.texts {
      forall i, j | 0 <= i < j < |h.order| ensures h.order[i] != h.order[j] {
        if j == |h.order| - 1 { assert h.order[i] in g.order; }
      }
    }
  }

  /** `f"- {speaker}: {text}"`. */
  function ExcerptLine(k: Option<string>, text: string): string
  {
    "- " + ShowSpeaker(k) + ": " + text
  }

  /** The excerpt lines one speaker's texts give, long ones only. */
  function LongLines(k: Option<string>, ts: seq<string>): seq<string>
  {
    if ts == [] then []
    else
      var t := ts[|ts| - 1];
      LongLines(k, ts[..|ts| - 1]) + (if |t| > MinExcerptLength then [ExcerptLine(k, t)] else [])
  }

  /** The texts of speaker `k` in `texts`, none when it has no entry. */
  function TextsOf(texts: map<Option<string>, seq<string>>, k: Option<string>): seq<string>
  {
    if k in texts then texts[k] else []
  }

  /** The excerpt lines of the speakers `order`, speaker by speaker. */
  function AllLines(order: seq<Option<string>>, texts: map<Option<string>, seq<string>>): seq<string>
  {
    if order == [] then []
    else
      var k := order[|order| - 1];
      AllLines(order[..|order| - 1], texts) + LongLines(k, TextsOf(texts, k))
  }

  /** The excerpt block: the first 10 lines, as the two loops with their
      shared counter produce them. */
  function Excerpts(g: Segments): seq<string>
  {
    Take(AllLines(g.order, g.texts), MaxExcerpts)
  }

  /** The lines of the first `i` speakers begin the lines of the first `j`. */
  lemma {:induction false} AllLinesPrefix(order: seq<Option<string>>, i: nat, j: nat, texts: map<Option<string>, seq<string>>)
    requires i <= j <= |order|
    ensures AllLines(order[..i], texts) <= AllLines(order[..j], texts)
    decreases j - i
  {
    if i < j {
      AllLinesPrefix(order, i, j - 1, texts);
      AllLinesSnoc(order, j - 1, texts);
    }
  }

  lemma {:induction false} LongLinesWitness(k: Option<string>, ts: seq<string>, line: string) returns (t: string)
    requires line in LongLines(k, ts)
    ensures t in ts && |t| > MinExcerptLength && line == ExcerptLine(k, t)
  {
    var init := ts[..|ts| - 1];
    if line in LongLines(k, init) {
      t := LongLinesWitness(k, init, line);
      assert t in ts;
    } else {
      t := ts[|ts| - 1];
    }
  }

  lemma {:induction false} AllLinesWitness(order: seq<Option<string>>, texts: map<Option<string>, seq<string>>, line: string)
    returns (k: Option<string>, t: string)
    requires line in AllLines(order, texts)
    ensures k in order && t in TextsOf(texts, k) && |t| > MinExcerptLength && line == ExcerptLine(k, t)
  {
    var init := order[..|order| - 1];
    if line in AllLines(init, texts) {
      k, t := AllLinesWitness(init, texts, line);
      assert k in order;
    } else {
      k := order[|order| - 1];
      t := LongLinesWitness(k, TextsOf(texts, k), line);
    }
  }

  lemma {:induction false} TextsByWitness(ss: seq<Option<Sentence>>, k: Option<string>, t: string) returns (i: nat)
    requires t in TextsBy(ss, k)
    ensures i < |ss| && Spoken(ss[i]) && SpeakerOf(ss[i].value) == k && ss[i].value.text.value == t
  {
    var init := ss[..|ss| - 1];
    if t in TextsBy(init, k) {
      i := TextsByWitness(init, k, t);
    } else {
      i := |ss| - 1;
    }
  }

  lemma {:induction false} TextsByMember(ss: seq<Option<Sentence>>, i: nat)
    requires i < |ss| && Spoken(ss[i])
    ensures ss[i].value.text.value in TextsBy(ss, SpeakerOf(ss[i].value))
  {
    if i < |ss| - 1 {
      var init := ss[..|ss| - 1];
      TextsByMember(init, i);
    }
  }

  lemma {:induction false} LongLinesMember(k: Option<string>, ts: seq<string>, t: string)
    requires t in ts && |t| > MinExcerptLength
    ensures ExcerptLine(k, t) in LongLines(k, ts)
  {
    var init := ts[..|ts| - 1];
    if t != ts[|ts| - 1] {
      assert t in init;
      LongLinesMember(k, init, t);
    }
  }

  lemma {:induction false} AllLinesMember(order: seq<Option<string>>, texts: map<Option<string>, seq<string>>, k: Option<string>, line: string)
    requires k in order && line in LongLines(k, TextsOf(texts, k))
    ensures line in AllLines(order, texts)
  {
    var init := order[..|order| - 1];
    if k != order[|order| - 1] {
      assert k in init;
      AllLinesMember(init, texts, k, line);
    }
  }

  /** At most 10 excerpts, each `- speaker: text` for a spoken sentence
      longer than 50 characters; and a long spoken sentence is left out only
      when 10 excerpts were already taken. */
  lemma ExcerptsProperties(ss: seq<Option<Sentence>>)
    ensures GroupOf(ss, Group(ss))
    ensures |Excerpts(Group(ss))| <= MaxExcerpts
    ensures forall line :: line in Excerpts(Group(ss)) ==>
              exists i :: 0 <= i < |ss| && Spoken(ss[i]) && |ss[i].value.text.value| > MinExcerptLength
                          && line == ExcerptLine(SpeakerOf(ss[i].value), ss[i].value.text.value)
    ensures forall i :: 0 <= i < |ss| && Spoken(ss[i]) && |ss[i].value.text.value| > MinExcerptLength
              && ExcerptLine(SpeakerOf(ss[i].value), ss[i].value.text.value) !in Excerpts(Group(ss))
              ==> |Excerpts(Group(ss))| == MaxExcerpts
  {
    GroupProperties(ss);
    var g := Group(ss);
    var all := AllLines(g.order, g.texts);
    forall line | line in Excerpts(g)
      ensures exists i :: 0 <= i < |ss| && Spoken(ss[i]) && |ss[i].value.text.value| > MinExcerptLength
                          && line == ExcerptLine(SpeakerOf(ss[i].value), ss[i].value.text.value)
    {
      var k, t := AllLinesWitness(g.order, g.texts, line);
      var i := TextsByWitness(ss, k, t);
    }
    forall i | 0 <= i < |ss| && Spoken(ss[i]) && |ss[i].value.text.value| > MinExcerptLength
              && ExcerptLine(SpeakerOf(ss[i].value), ss[i].value.text.value) !in Excerpts(g)
      ensures |Excerpts(g)| == MaxExcerpts
    {
      var k := SpeakerOf(ss[i].value);
      var t := ss[i].value.text.value;
      TextsByMember(ss, i);
      LongLinesMember(k, TextsOf(g.texts, k), t);
      AllLinesMember(g.order, g.texts, k, ExcerptLine(k, t));
    }
  }

  function HeadLines(t: Transcript): seq<string>
  {
    ["MEETING: " + Shown(t.title, "Untitled"),
     "DATE: " + Shown(t.dateString, "Unknown date"),
     "URL: " + Shown(t.transcriptUrl, "No URL")]
  }

  function ParticipantLines(domain: string, t: Transcript): seq<string>
  {
    var ds := DomainEmails(EmailList(t), domain);
    if ds != [] then ["DOMAIN PARTICIPANTS: " + Join(ds, ", ")] else []
  }

  function SummaryLines(t: Transcript): seq<string>
  {
    if HasOverview(t) then ["\nSUMMARY:\n" + t.summary.value.overview.value] else []
  }

  function ExcerptLines(t: Transcript): seq<string>
  {
    var ss := Window(t);
    if ss != [] then ["\nKEY DISCUSSION EXCERPTS:"] + Excerpts(Group(ss)) else []
  }

  /** The lines of `meeting_info` for one transcript, with null sentences
      read as none. */
  function MeetingInfo(domain: string, t: Transcript): seq<string>
  {
    HeadLines(t) + ParticipantLines(domain, t) + SummaryLines(t) + ExcerptLines(t)
  }

  function MeetingBlock(domain: string, t: Transcript): string
  {
    Join(MeetingInfo(domain, t), "\n")
  }

  /** Each meeting's block, in order. */
  function Blocks(domain: string, ts: seq<Transcript>): (bs: seq<string>)
    ensures |bs| == |ts| && forall i :: 0 <= i < |ts| ==> bs[i] == MeetingBlock(domain, ts[i])
  {
    seq(|ts|, i requires 0 <= i < |ts| => MeetingBlock(domain, ts[i]))
  }

  /** `content_parts`: each block followed by a separator. */
  function Framed(blocks: seq<string>): seq<string>
  {
    if blocks == [] then [] else Framed(blocks[..|blocks| - 1]) + [blocks[|blocks| - 1], Separator]
  }

  lemma FramedSnoc(blocks: seq<string>, i: nat)
    requires i < |blocks|
    ensures Framed(blocks[..i + 1]) == Framed(blocks[..i]) + [blocks[i], Separator]
  {
    assert blocks[..i + 1][..i] == blocks[..i];
  }

  /** `prepare_for_gemini`, with null sentences read as none. */
  function OptimizedPrompt(domain: string, ts: seq<Transcript>): string
  {
    Join(Framed(Blocks(domain, ts)), "\n")
  }

  /** `prepare_for_gemini` as written: the first transcript whose
      `sentences` is null makes it raise. */
  function OptimizedPromptAsWritten(domain: string, ts: seq<Transcript>): Result<string, string>
  {
    if exists i :: 0 <= i < |ts| && WindowAsWritten(ts[i]).Failure? then Failure(NotSubscriptable)
    else Success(OptimizedPrompt(domain, ts))
  }

  /** Each block comes out followed by an 80-character rule, in order. */
  lemma {:induction false} FramedShape(blocks: seq<string>)
    ensures |Framed(blocks)| == 2 * |blocks|
    ensures forall i :: 0 <= i < |blocks| ==> Framed(blocks)[2 * i] == blocks[i] && Framed(blocks)[2 * i + 1] == Separator
  {
    if blocks != [] {
      var init := blocks[..|blocks| - 1];
      FramedShape(init);
      var p0 := Framed(init);
      var p := Framed(blocks);
      assert p == p0 + [blocks[|blocks| - 1], Separator];
      forall i | 0 <= i < |blocks|
        ensures p[2 * i] == blocks[i] && p[2 * i + 1] == Separator
      {
        if i < |blocks| - 1 {
          assert p[2 * i] == p0[2 * i] && p[2 * i + 1] == p0[2 * i + 1];
        }
      }
    }
  }

  /** What one meeting's block holds: its title, date and URL lines; a
      participants line exactly when a domain participant is found, listing
      the domain addresses; a summary exactly when the overview is truthy;
      and the excerpt header exactly when the first 200 sentences are not
      empty, followed by the excerpts of those sentences. */
  lemma MeetingInfoProperties(domain: string, t: Transcript)
    ensures var info := MeetingInfo(domain, t);
            var p := if HasDomainParticipant(t, domain) then 1 else 0;
            var o := if HasOverview(t) then 1 else 0;
            |info| >= 3 + p + o
            && info[..3] == ["MEETING: " + Shown(t.title, "Untitled"),
                            "DATE: " + Shown(t.dateString, "Unknown date"),
                            "URL: " + Shown(t.transcriptUrl, "No URL")]
            && (p == 1 ==> info[3] == "DOMAIN PARTICIPANTS: " + Join(DomainEmails(EmailList(t), domain), ", "))
            && (o == 1 ==> info[3 + p] == "\nSUMMARY:\n" + t.summary.value.overview.value)
            && (Window(t) == [] ==> |info| == 3 + p + o)
            && (Window(t) != [] ==>
                  info[3 + p + o] == "\nKEY DISCUSSION EXCERPTS:" && info[4 + p + o..] == Excerpts(Group(Window(t))))
            && Window(t) == Take(Items(t.sentences), MaxSentences)
  {
    DomainEmailsNonEmpty(t, domain);
    var h, pl, sl, el := HeadLines(t), ParticipantLines(domain, t), SummaryLines(t), ExcerptLines(t);
    var info := MeetingInfo(domain, t);
    var p := if HasDomainParticipant(t, domain) then 1 else 0;
    var o := if HasOverview(t) then 1 else 0;
    assert |h| == 3 && |pl| == p && |sl| == o;
    assert info == h + pl + sl + el;
    assert info[..3] == h;
    assert info[3 + p + o..] == el;
    if p == 1 { assert info[3] == pl[0]; }
    if o == 1 { assert info[3 + p] == sl[0]; }
    if Window(t) != [] { assert el[1..] == Excerpts(Group(Window(t))); }
  }

  /** The source as written fails exactly when some transcript has null
      `sentences`, and otherwise agrees with the corrected model. */
  lemma PromptAsWrittenFails(domain: string, ts: seq<Transcript>)
    ensures OptimizedPromptAsWritten(domain, ts).Failure? <==> exists i :: 0 <= i < |ts| && ts[i].sentences.Null?
    ensures OptimizedPromptAsWritten(domain, ts).Success? ==>
              OptimizedPromptAsWritten(domain, ts).value == OptimizedPrompt(domain, ts)
  {
    if exists i :: 0 <= i < |ts| && ts[i].sentences.Null? {
      var i :| 0 <= i < |ts| && ts[i].sentences.Null?;
      assert WindowAsWritten(ts[i]).Failure?;
    }
  }

  /** The meeting with null `sentences` that the module's tests expect to be
      prepared: as written it raises; the corrected prompt names it. */
  lemma NullSentencesExample(domain: string)
    ensures var t := Blank.(title := Val("Test Meeting"), dateString := Val("2025-01-15T10:00:00Z"), sentences := Null);
            OptimizedPromptAsWritten(domain, [t]) == Failure(NotSubscriptable)
            && Contains(OptimizedPrompt(domain, [t]), "Test Meeting")
  {
    var t := Blank.(title := Val("Test Meeting"), dateString := Val("2025-01-15T10:00:00Z"), sentences := Null);
    NullSentencesCase(domain, t);
  }

  /** A titled meeting with null sentences: the code as written raises, the
      corrected prompt shows the title. */
  lemma NullSentencesCase(domain: string, t: Transcript)
    requires t.sentences.Null? && t.title.Val?
    ensures OptimizedPromptAsWritten(domain, [t]) == Failure(NotSubscriptable)
    ensures Contains(OptimizedPrompt(domain, [t]), t.title.value)
  {
    assert WindowAsWritten([t][0]).Failure?;
    PromptStartsWithTitle(domain, t);
    var out := OptimizedPrompt(domain, [t]);
    var first := "MEETING: " + t.title.value;
    assert out[..|first|] == first;
    assert out[9..][..|t.title.value|] == first[9..];
    ContainsAt(out, t.title.value, 9);
  }

  /** The prompt for one meeting opens with its title line. */
  lemma PromptStartsWithTitle(domain: string, t: Transcript)
    ensures StartsWith(OptimizedPrompt(domain, [t]), "MEETING: " + Shown(t.title, "Untitled"))
  {
    var first := "MEETING: " + Shown(t.title, "Untitled");
    var info := MeetingInfo(domain, t);
    assert info[0] == HeadLines(t)[0];
    JoinHeadPrefix(info, "\n", first);
    var parts := Framed(Blocks(domain, [t]));
    FramedShape(Blocks(domain, [t]));
    JoinHeadPrefix(parts, "\n", MeetingBlock(domain, t));
  }

  lemma JoinHeadPrefix(parts: seq<string>, sep: string, p: string)
    requires |parts| > 0 && StartsWith(parts[0], p)
    ensures StartsWith(Join(parts, sep), p)
  {
    JoinStartsWith(parts, sep);
    var j := Join(parts, sep);
    assert j[..|p|] == j[..|parts[0]|][..|p|];
  }

  // ----- prepare_for_gemini, the loops -----

  method GroupSentences(ss: seq<Option<Sentence>>) returns (g: Segments)
    ensures g == Group(ss)
  {
    var order: seq<Option<string>> := [];
    var texts: map<Option<string>, seq<string>> := map[];
    for i := 0 to |ss|
      invariant Segments(order, texts) == Group(ss[..i])
    {
      var sentence := ss[i];
      if sentence.Some? && Truthy(sentence.value.text) {
        var speaker := SpeakerOf(sentence.value);
        if speaker !in texts {
          order := order + [speaker];
          texts := texts[speaker := []];
        }
        texts := texts[speaker := texts[speaker] + [sentence.value.text.value]];
      }
      assert ss[..i + 1][..i] == ss[..i];
    }
    assert ss[..|ss|] == ss;
    g := Segments(order, texts);
  }

  /** The excerpt loops: speakers in insertion order, long texts only, at
      most 10 lines in all. */
  method SelectExcerpts(g: Segments) returns (lines: seq<string>)
    requires forall k :: k in g.order ==> k in g.texts
    ensures lines == Excerpts(g)
  {
    lines := [];
    var i := 0;
    while i < |g.order|
      invariant i <= |g.order|
      invariant lines == Take(AllLines(g.order[..i], g.texts), MaxExcerpts)
    {
      if |lines| >= MaxExcerpts {
        ExcerptsFull(g, i);
        return;
      }
      var speaker := g.order[i];
      AllLinesSnoc(g.order, i, g.texts);
      lines := SpeakerExcerpts(speaker, g.texts[speaker], lines, AllLines(g.order[..i], g.texts));
      i := i + 1;
    }
    assert g.order[..i] == g.order;
  }

  lemma AllLinesSnoc(order: seq<Option<string>>, i: nat, texts: map<Option<string>, seq<string>>)
    requires i < |order|
    ensures AllLines(order[..i + 1], texts) == AllLines(order[..i], texts) + LongLines(order[i], TextsOf(texts, order[i]))
  {
    assert order[..i + 1][..i] == order[..i];
  }

  /** Once 10 lines are taken, the speakers left add nothing. */
  lemma ExcerptsFull(g: Segments, i: nat)
    requires i <= |g.order|
    requires |Take(AllLines(g.order[..i], g.texts), MaxExcerpts)| >= MaxExcerpts
    ensures Take(AllLines(g.order[..i], g.texts), MaxExcerpts) == Excerpts(g)
  {
    AllLinesPrefix(g.order, i, |g.order|, g.texts);
    assert g.order[..|g.order|] == g.order;
    TakeFull(AllLines(g.order[..i], g.texts), AllLines(g.order, g.texts), MaxExcerpts);
  }

  /** The inner loop over one speaker's texts, adding lines while fewer
      than 10 were taken. */
  method SpeakerExcerpts(speaker: Option<string>, texts: seq<string>, lines0: seq<string>, ghost before: seq<string>)
    returns (lines: seq<string>)
    requires lines0 == Take(before, MaxExcerpts)
    ensures lines == Take(before + LongLines(speaker, texts), MaxExcerpts)
  {
    lines := lines0;
    var count := |lines|;
    for j := 0 to |texts|
      invariant lines == Take(before + LongLines(speaker, texts[..j]), MaxExcerpts) && count == |lines|
    {
      var text := texts[j];
      ghost var sofar := before + LongLines(speaker, texts[..j]);
      assert texts[..j + 1][..j] == texts[..j];
      if |text| > MinExcerptLength {
        assert before + LongLines(speaker, texts[..j + 1]) == sofar + [ExcerptLine(speaker, text)];
        TakeSnoc(sofar, ExcerptLine(speaker, text), MaxExcerpts);
        if count < MaxExcerpts {
          lines := lines + [ExcerptLine(speaker, text)];
          count := count + 1;
        }
      } else {
        assert before + LongLines(speaker, texts[..j + 1]) == sofar;
      }
    }
    assert texts[..|texts|] == texts;
  }

  method MeetingInfoOf(domain: string, t: Transcript) returns (info: seq<string>)
    ensures info == MeetingInfo(domain, t)
  {
    info := ["MEETING: " + Shown(t.title, "Untitled"),
             "DATE: " + Shown(t.dateString, "Unknown date"),
             "URL: " + Shown(t.transcriptUrl, "No URL")];
    var emails := ExtractParticipantEmails(t);
    var domainParticipants := DomainEmails(emails, domain);
    if domainParticipants != [] {
      info := info + ["DOMAIN PARTICIPANTS: " + Join(domainParticipants, ", ")];
    }
    assert info == HeadLines(t) + ParticipantLines(domain, t);
    if t.summary.Val? && Truthy(t.summary.value.overview) {
      info := info + ["\nSUMMARY:\n" + t.summary.value.overview.value];
    }
    assert info == HeadLines(t) + ParticipantLines(domain, t) + SummaryLines(t);
    var excerpts := SentenceExcerpts(t);
    info := info + excerpts;
  }

  /** The `if sentences:` block: the header and the excerpts, or nothing. */
  method SentenceExcerpts(t: Transcript) returns (lines: seq<string>)
    ensures lines == ExcerptLines(t)
  {
    lines := [];
    var sentences := Take(Items(t.sentences), MaxSentences);
    if sentences != [] {
      var g := GroupSentences(sentences);
      GroupProperties(sentences);
      assert forall k :: k in g.order ==> k in g.texts;
      var excerpts := SelectExcerpts(g);
      lines := ["\nKEY DISCUSSION EXCERPTS:"] + excerpts;
    }
  }

  method PrepareForGemini(domain: string, ts: seq<Transcript>) returns (content: string)
    ensures content == OptimizedPrompt(domain, ts)
  {
    ghost var blocks := Blocks(domain, ts);
    var parts: seq<string> := [];
    for i := 0 to |ts|
      invariant parts == Framed(blocks[..i])
    {
      var info := MeetingInfoOf(domain, ts[i]);
      var block := Join(info, "\n");
      assert block == blocks[i];
      FramedSnoc(blocks, i);
      parts := parts + [block, Separator];
    }
    assert blocks[..|ts|] == blocks;
    content := Join(parts, "\n");
  }
}
