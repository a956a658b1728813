/** `DomainCaseStudyGenerator` (generate_case_study_from_domain.py): finds the
    meetings with a participant in a client domain by paging through the
    transcripts 30 at a time, then lays them out for the language model. */
module DomainGenerator {
  import opened Wrappers
  import opened Text
  import opened Records
  import opened Sorting
  import opened FirefliesApi
  import opened Paging
  import opened Emails
  import opened Cutoff

  // ----- fetch_domain_meetings -----

  const PageSize := 30
  /** "Reasonable limit for case study": stop after a batch once this many
      meetings were found. */
  const EnoughMeetings := 20
  /** Stop once `skip` reaches this many transcripts. */
  const SkipCap := 600

  /** The progress line slices the `dateString` of the batch's first and last
      transcripts; a null value there raises, and the method re-raises. */
  predicate ProgressFails(items: seq<Transcript>)
    requires |items| > 0
  {
    items[0].dateString.Null? || items[|items| - 1].dateString.Null?
  }

  /** What one pass of the loop body decides: stop with a result, or go on
      with the meetings found so far. */
  datatype Step = Stop(result: Result<seq<Transcript>, string>) | GoOn(found: seq<Transcript>)

  /** One pass of the `while True` body at offset `skip` with `acc` found. */
  function DomainStep(pages: Pages, domain: string, older: Older, skip: nat, acc: seq<Transcript>): Step
  {
    match pages(skip)
    case Raised(m) => Stop(Failure(m))
    case Exhausted => Stop(Success(acc))
    case Batch(items) =>
      var sc := ScanBatch(items, domain, older);
      var found := acc + sc.kept;
      if sc.hitOld || |items| < PageSize then Stop(Success(found))
      else if ProgressFails(items) then Stop(Failure(NotSubscriptable))
      else if |found| >= EnoughMeetings || skip + PageSize >= SkipCap then Stop(Success(found))
      else GoOn(found)
  }

  /** The outcome of the paging loop and the offsets it queried. */
  datatype Run = Run(result: Result<seq<Transcript>, string>, queries: seq<nat>)

  /** The `while True` loop from offset `skip` with `acc` already found. */
  function DomainRun(pages: Pages, domain: string, older: Older, skip: nat, acc: seq<Transcript>): (r: Run)
    requires skip < SkipCap
    ensures |r.queries| >= 1 && r.queries[0] == skip
    decreases SkipCap - skip
  {
    match DomainStep(pages, domain, older, skip, acc)
    case Stop(result) => Run(result, [skip])
    case GoOn(found) =>
      if skip + PageSize < SkipCap then
        var rest := DomainRun(pages, domain, older, skip + PageSize, found);
        Run(rest.result, [skip] + rest.queries)
      else Run(Success(found), [skip])
  }

  /** When the body goes on, the next offset is below the cap, the batch was
      full with no old transcript and a printable progress line, and the
      batch's domain-participant transcripts were added. */
  lemma GoOnStep(pages: Pages, domain: string, older: Older, skip: nat, acc: seq<Transcript>)
    requires DomainStep(pages, domain, older, skip, acc).GoOn?
    ensures skip + PageSize < SkipCap
    ensures FullRecentBatch(pages, skip, older)
    ensures var items := pages(skip).items;
            DomainStep(pages, domain, older, skip, acc).found == acc + KeepDomain(items, domain)
            && |acc + KeepDomain(items, domain)| < EnoughMeetings
  {
    var items := pages(skip).items;
    assert FirstOld(items, older) == |items|;
    assert items[..|items|] == items;
    assert BeforeOld(items, older) == items;
  }

  /** When the body stops with a result, that result holds the transcripts
      kept from the batch before its first old one. */
  lemma StopStep(pages: Pages, domain: string, older: Older, skip: nat, acc: seq<Transcript>)
    requires DomainStep(pages, domain, older, skip, acc).Stop?
    ensures var res := DomainStep(pages, domain, older, skip, acc).result;
            res.Success? ==> res.value == acc + KeepDomain(BeforeOld(PageItems(pages(skip)), older), domain)
  {
    if !pages(skip).Batch? {
      assert PageItems(pages(skip)) == [];
      assert BeforeOld([], older) == [];
    }
  }

  /** `_parse_date`: a parsable non-empty `dateString`, else a non-zero
      `date` timestamp, else the current time `now`. Dates are instants on
      one integer scale. */
  function ParseDate(t: Transcript, parse: string -> Option<int>, now: int): int
  {
    if Truthy(t.dateString) && parse(t.dateString.value).Some? then parse(t.dateString.value).value
    else if t.date.Val? && t.date.value != 0 then t.date.value
    else now
  }

  function DateOrder(parse: string -> Option<int>, now: int): (Transcript, Transcript) -> bool
  {
    (a: Transcript, b: Transcript) => ParseDate(a, parse, now) <= ParseDate(b, parse, now)
  }

  lemma DateOrderTotal(parse: string -> Option<int>, now: int)
    ensures TotalPreorder(DateOrder(parse, now))
  {
  }

  /** `fetch_domain_meetings`: the loop's result sorted by parsed date,
      oldest first; a query error or a failing progress line is re-raised. */
  function DomainMeetings(server: Server, domain: string, older: Older,
                          parse: string -> Option<int>, now: int): Result<seq<Transcript>, string>
  {
    var run := DomainRun(PagesOf(server), domain, older, 0, []);
    DateOrderTotal(parse, now);
    if run.result.Failure? then Failure(run.result.error)
    else Success(SortBy(run.result.value, DateOrder(parse, now)))
  }

  method FetchDomainMeetings(server: Server, domain: string, older: Older,
                             parse: string -> Option<int>, now: int) returns (r: Result<seq<Transcript>, string>)
    ensures r == DomainMeetings(server, domain, older, parse, now)
  {
    ghost var pages := PagesOf(server);
    ghost var target := DomainRun(pages, domain, older, 0, []).result;
    var all: seq<Transcript> := [];
    var skip: nat := 0;
    while true
      invariant skip < SkipCap
      invariant DomainRun(pages, domain, older, skip, all).result == target
      decreases SkipCap - skip
    {
      ghost var s0, a0 := skip, all;
      var page := PageOf(ExecuteQuery(server(skip)));
      assert page == pages(s0);
      if page.Raised? {
        return Failure(page.message);
      }
      if page.Exhausted? {
        break;
      }
      var batch := page.items;
      var kept, shouldStop := FilterBatch(batch, domain, older);
      all := all + kept;
      if shouldStop {
        break;
      }
      if |batch| < PageSize {
        break;
      }
      skip := skip + PageSize;
      if batch[0].dateString.Null? || batch[|batch| - 1].dateString.Null? {
        return Failure(NotSubscriptable);
      }
      if |all| >= EnoughMeetings {
        break;
      }
      if skip >= SkipCap {
        break;
      }
      assert DomainRun(pages, domain, older, s0, a0).result == DomainRun(pages, domain, older, skip, all).result;
    }
    assert target == Success(all);
    DateOrderTotal(parse, now);
    r := Success(SortBy(all, DateOrder(parse, now)));
  }

  /** The run from `skip` queries skip, skip+30, ..., the last below 600. */
  predicate OffsetsFrom(pages: Pages, domain: string, older: Older, skip: nat, acc: seq<Transcript>)
    requires skip < SkipCap
  {
    var qs := DomainRun(pages, domain, older, skip, acc).queries;
    SteppedFrom(qs, skip, PageSize) && skip + PageSize * (|qs| - 1) < SkipCap
  }

  lemma {:induction false} DomainRunOffsets(pages: Pages, domain: string, older: Older, skip: nat, acc: seq<Transcript>)
    requires skip < SkipCap
    ensures OffsetsFrom(pages, domain, older, skip, acc)
    decreases SkipCap - skip
  {
    var st := DomainStep(pages, domain, older, skip, acc);
    if st.GoOn? && skip + PageSize < SkipCap {
      DomainRunOffsets(pages, domain, older, skip + PageSize, st.found);
      OffsetsAfterGoOn(pages, domain, older, skip, acc);
    } else {
      LastQuery(pages, domain, older, skip, acc);
    }
  }

  /** A pass that does not go on to a further offset is the last, and the
      offsets are then just `[skip]`. */
  lemma LastQuery(pages: Pages, domain: string, older: Older, skip: nat, acc: seq<Transcript>)
    requires skip < SkipCap
    requires !(DomainStep(pages, domain, older, skip, acc).GoOn? && skip + PageSize < SkipCap)
    ensures OffsetsFrom(pages, domain, older, skip, acc)
  {
    var qs := DomainRun(pages, domain, older, skip, acc).queries;
    assert qs == [skip];
  }

  lemma OffsetsAfterGoOn(pages: Pages, domain: string, older: Older, skip: nat, acc: seq<Transcript>)
    requires skip + PageSize < SkipCap
    requires DomainStep(pages, domain, older, skip, acc).GoOn?
    requires OffsetsFrom(pages, domain, older, skip + PageSize, DomainStep(pages, domain, older, skip, acc).found)
    ensures OffsetsFrom(pages, domain, older, skip, acc)
  {
    var st := DomainStep(pages, domain, older, skip, acc);
    var rest := DomainRun(pages, domain, older, skip + PageSize, st.found);
    var r := DomainRun(pages, domain, older, skip, acc);
    assert r.queries == [skip] + rest.queries;
    SteppedCons(rest.queries, skip, PageSize);
  }

  /** At most 20 queries are issued, at the offsets 0, 30, ..., 570. */
  lemma DomainQueriesBound(pages: Pages, domain: string, older: Older)
    ensures var qs := DomainRun(pages, domain, older, 0, []).queries;
            1 <= |qs| <= SkipCap / PageSize && Stepped(qs, PageSize)
            && forall k :: 0 <= k < |qs| ==> qs[k] < SkipCap
  {
    DomainRunOffsets(pages, domain, older, 0, []);
    assert OffsetsFrom(pages, domain, older, 0, []);
  }

  /** The result a successful run from `skip` with `acc` found returns. */
  predicate FoundAll(pages: Pages, domain: string, older: Older, skip: nat, acc: seq<Transcript>)
    requires skip < SkipCap
  {
    var r := DomainRun(pages, domain, older, skip, acc);
    r.result.Success? ==>
      r.result.value == acc + KeepDomain(BeforeOld(Stream(pages, r.queries), older), domain)
  }

  /** A successful loop returns the domain-participant transcripts, in stream
      order, among those fetched before the first one older than the cutoff. */
  lemma {:induction false} DomainRunFound(pages: Pages, domain: string, older: Older, skip: nat, acc: seq<Transcript>)
    requires skip < SkipCap
    ensures FoundAll(pages, domain, older, skip, acc)
    decreases SkipCap - skip
  {
    var st := DomainStep(pages, domain, older, skip, acc);
    if st.Stop? {
      FoundAtStop(pages, domain, older, skip, acc);
    } else {
      FoundAfterGoOn(pages, domain, older, skip, acc);
      DomainRunFound(pages, domain, older, skip + PageSize, st.found);
    }
  }

  lemma FoundAtStop(pages: Pages, domain: string, older: Older, skip: nat, acc: seq<Transcript>)
    requires skip < SkipCap
    requires DomainStep(pages, domain, older, skip, acc).Stop?
    ensures FoundAll(pages, domain, older, skip, acc)
  {
    var st := DomainStep(pages, domain, older, skip, acc);
    var r := DomainRun(pages, domain, older, skip, acc);
    assert r == Run(st.result, [skip]);
    StreamOne(pages, skip);
    StopStep(pages, domain, older, skip, acc);
  }

  lemma FoundAfterGoOn(pages: Pages, domain: string, older: Older, skip: nat, acc: seq<Transcript>)
    requires skip < SkipCap
    requires DomainStep(pages, domain, older, skip, acc).GoOn?
    ensures skip + PageSize < SkipCap
    ensures FoundAll(pages, domain, older, skip + PageSize, DomainStep(pages, domain, older, skip, acc).found)
            ==> FoundAll(pages, domain, older, skip, acc)
  {
    GoOnStep(pages, domain, older, skip, acc);
    var st := DomainStep(pages, domain, older, skip, acc);
    var items := pages(skip).items;
    var rest := DomainRun(pages, domain, older, skip + PageSize, st.found);
    var r := DomainRun(pages, domain, older, skip, acc);
    assert r == Run(rest.result, [skip] + rest.queries);
    StreamCons(pages, skip, rest.queries);
    assert PageItems(pages(skip)) == items;
    FoundStep(items, Stream(pages, rest.queries), acc, domain, older);
  }

  /** A page after which the loop goes on: a batch of at least 30
      transcripts, none older than the cutoff, whose progress line prints. */
  predicate FullRecentBatch(pages: Pages, q: nat, older: Older)
  {
    var p := pages(q);
    p.Batch? && |p.items| >= PageSize && FirstOld(p.items, older) == |p.items| && !ProgressFails(p.items)
  }

  /** After the query `qs[k]` the loop went on: its batch was full and
      recent, and fewer than 20 meetings had been found. */
  predicate WentOn(pages: Pages, domain: string, older: Older, acc: seq<Transcript>, qs: seq<nat>, k: nat)
    requires k < |qs|
  {
    FullRecentBatch(pages, qs[k], older)
    && |acc + KeepDomain(Stream(pages, qs[..k + 1]), domain)| < EnoughMeetings
  }

  /** The loop went on after its `k`-th query unless that was its last. */
  lemma {:induction false} WentOnAt(pages: Pages, domain: string, older: Older, skip: nat, acc: seq<Transcript>, k: nat)
    requires skip < SkipCap
    requires k < |DomainRun(pages, domain, older, skip, acc).queries| - 1
    ensures WentOn(pages, domain, older, acc, DomainRun(pages, domain, older, skip, acc).queries, k)
    decreases SkipCap - skip
  {
    var qs := DomainRun(pages, domain, older, skip, acc).queries;
    var st := DomainStep(pages, domain, older, skip, acc);
    if st.Stop? {
      assert false;
    } else {
      GoOnStep(pages, domain, older, skip, acc);
      var items := pages(skip).items;
      var rest := DomainRun(pages, domain, older, skip + PageSize, st.found).queries;
      assert qs == [skip] + rest;
      if k == 0 {
        assert qs[..1] == [skip];
        StreamOne(pages, skip);
      } else {
        WentOnAt(pages, domain, older, skip + PageSize, st.found, k - 1);
        assert qs[..k + 1] == [skip] + rest[..k];
        StreamCons(pages, skip, rest[..k]);
        KeepDomainAppend(items, Stream(pages, rest[..k]), domain);
      }
    }
  }

  /** Every query but the last returned a full batch without an old
      transcript, and fewer than 20 meetings had been found after it: the
      loop stops at the first missing, empty or short batch, the first old
      transcript, the first failing progress line, or the first batch that
      brings the count to 20. */
  lemma DomainRunContinues(pages: Pages, domain: string, older: Older)
    ensures var qs := DomainRun(pages, domain, older, 0, []).queries;
            forall k: nat :: k < |qs| - 1 ==> WentOn(pages, domain, older, [], qs, k)
  {
    var qs := DomainRun(pages, domain, older, 0, []).queries;
    forall k: nat | k < |qs| - 1 ensures WentOn(pages, domain, older, [], qs, k) {
      WentOnAt(pages, domain, older, 0, [], k);
    }
  }

  /** `fetch_domain_meetings` as a whole: it fails exactly when the loop
      raised; otherwise it returns, oldest first, exactly the
      domain-participant transcripts fetched before the first old one, and
      each of them is recent and has a participant in the domain. */
  lemma DomainMeetingsProperties(server: Server, domain: string, older: Older,
                                 parse: string -> Option<int>, now: int)
    ensures var run := DomainRun(PagesOf(server), domain, older, 0, []);
            var r := DomainMeetings(server, domain, older, parse, now);
            (r.Failure? <==> run.result.Failure?)
            && (r.Success? ==>
                  SortedBy(r.value, DateOrder(parse, now))
                  && multiset(r.value) == multiset(KeepDomain(BeforeOld(Stream(PagesOf(server), run.queries), older), domain))
                  && forall t :: t in r.value ==> HasDomainParticipant(t, domain) && !IsOld(t, older))
  {
    var pages := PagesOf(server);
    var run := DomainRun(pages, domain, older, 0, []);
    var r := DomainMeetings(server, domain, older, parse, now);
    if r.Success? {
      DomainRunFound(pages, domain, older, 0, []);
      assert FoundAll(pages, domain, older, 0, []);
      var b := BeforeOld(Stream(pages, run.queries), older);
      var kept := KeepDomain(b, domain);
      assert run.result.value == kept;
      KeepDomainMembers(b, domain);
      NoOldBefore(Stream(pages, run.queries), older);
      forall t | t in r.value ensures HasDomainParticipant(t, domain) && !IsOld(t, older) {
        assert t in multiset(r.value);
        assert t in kept;
      }
    }
  }

  // ----- prepare_for_gemini -----

  /** "Leave room for prompt and response": the budget for meeting texts. */
  const MaxChars := 1_500_000
  const NoTranscripts := "No transcripts to process"

  /** The summary paragraph: `summary` must be an object whose `overview` is
      a non-empty string (a missing or null `summary` reads as `{}`). */
  function SummaryBlock(t: Transcript): string
  {
    if t.summary.Val? && Truthy(t.summary.value.overview)
    then "\nSummary: " + t.summary.value.overview.value + "\n"
    else ""
  }

  /** The line of one list element: a sentence object with a non-empty text
      (or raw text) gives `speaker: text`; anything else gives nothing. */
  function SentenceLine(s: Option<Sentence>): string
  {
    if s.Some? && SpokenText(s.value) != ""
    then Shown(s.value.speakerName, "Unknown") + ": " + SpokenText(s.value) + "\n"
    else ""
  }

  function SentenceBlock(ss: seq<Option<Sentence>>): string
  {
    if ss == [] then "" else SentenceBlock(ss[..|ss| - 1]) + SentenceLine(ss[|ss| - 1])
  }

  /** The header lines of the `i`-th meeting (0-based), whose date prints as
      `date`. */
  function MeetingHead(t: Transcript, i: nat, date: string): string
  {
    "\n" + Repeat('=', 80) + "\n"
    + "MEETING " + NatToString(i + 1) + ": " + Shown(t.title, "Meeting " + NatToString(i + 1)) + "\n"
    + "Date: " + date + "\n"
    + "URL: " + Shown(t.transcriptUrl, "N/A") + "\n"
  }

  /** The transcript section: a rule, then one line per spoken sentence, or
      a placeholder when `sentences` is missing, null or empty. */
  function TranscriptBlock(t: Transcript): string
  {
    "\nTranscript:\n" + Repeat('-', 40) + "\n"
    + (if NonEmptyList(t.sentences) then SentenceBlock(t.sentences.value)
       else "[No transcript content available]\n")
  }

  /** `meeting_text` of the `i`-th meeting. */
  function MeetingText(t: Transcript, i: nat, date: string): string
  {
    MeetingHead(t, i, date) + SummaryBlock(t) + TranscriptBlock(t)
  }

  /** What replaces the first meeting that does not fit, `m` meetings before
      the end. */
  function Notice(m: nat): string
  {
    "\n[Remaining " + NatToString(m) + " meetings truncated due to length limits]\n"
  }

  /** The texts of all meetings, dates printed by `show`. */
  function MeetingTexts(ts: seq<Transcript>, parse: string -> Option<int>, now: int, show: int -> string): (r: seq<string>)
    ensures |r| == |ts|
    ensures forall i :: 0 <= i < |ts| ==> r[i] == MeetingText(ts[i], i, show(ParseDate(ts[i], parse, now)))
  {
    seq(|ts|, i requires 0 <= i < |ts| => MeetingText(ts[i], i, show(ParseDate(ts[i], parse, now))))
  }

  /** The outcome of the packing loop: the fragments joined into the content,
      the characters counted, and whether a notice was appended. */
  datatype Packed = Packed(fragments: seq<string>, total: nat, noticed: bool)

  /** The packing loop from meeting `i` on, with `total` counted and `frags`
      collected so far. */
  function PackFrom(texts: seq<string>, i: nat, total: nat, frags: seq<string>): Packed
    requires i <= |texts|
    decreases |texts| - i
  {
    if i == |texts| then Packed(frags, total, false)
    else if total + |texts[i]| > MaxChars then Packed(frags + [Notice(|texts| - i)], total, true)
    else PackFrom(texts, i + 1, total + |texts[i]|, frags + [texts[i]])
  }

  function Pack(texts: seq<string>): Packed
  {
    PackFrom(texts, 0, 0, [])
  }

  /** The number of characters of `xs` together. */
  function SumLen(xs: seq<string>): nat
  {
    if xs == [] then 0 else SumLen(xs[..|xs| - 1]) + |xs[|xs| - 1]|
  }

  /** `"".join(xs)`. */
  function Concat(xs: seq<string>): string
  {
    if xs == [] then "" else Concat(xs[..|xs| - 1]) + xs[|xs| - 1]
  }

  lemma {:induction false} ConcatLength(xs: seq<string>)
    ensures |Concat(xs)| == SumLen(xs)
  {
    if xs != [] { ConcatLength(xs[..|xs| - 1]); }
  }

  /** `p` adds the texts `i..k` to `frags` whole, they fit in the budget, and
      the text `k`, if any, does not fit and is replaced by the notice. */
  predicate PackedUpTo(texts: seq<string>, i: nat, frags: seq<string>, p: Packed, k: nat)
  {
    i <= k <= |texts|
    && p.total == SumLen(texts[..k]) <= MaxChars
    && (k < |texts| <==> p.noticed)
    && (k < |texts| ==> SumLen(texts[..k + 1]) > MaxChars)
    && p.fragments == frags + texts[i..k] + (if p.noticed then [Notice(|texts| - k)] else [])
  }

  /** The shape of a run of the packing loop from meeting `i`: the meetings
      from `i` on whose texts fit are added whole, and the first that does
      not fit, if any, is replaced by the notice. */
  lemma {:induction false} PackFromShape(texts: seq<string>, i: nat, total: nat, frags: seq<string>) returns (k: nat)
    requires i <= |texts| && total == SumLen(texts[..i]) <= MaxChars
    ensures PackedUpTo(texts, i, frags, PackFrom(texts, i, total, frags), k)
    decreases |texts| - i
  {
    var p := PackFrom(texts, i, total, frags);
    if i == |texts| {
      k := i;
      assert texts[i..i] == [];
    } else {
      assert texts[..i + 1][..i] == texts[..i];
      assert SumLen(texts[..i + 1]) == total + |texts[i]|;
      if total + |texts[i]| > MaxChars {
        k := i;
        assert texts[i..i] == [];
      } else {
        k := PackFromShape(texts, i + 1, total + |texts[i]|, frags + [texts[i]]);
        assert [texts[i]] + texts[i + 1..k] == texts[i..k];
        assert frags + [texts[i]] + texts[i + 1..k] == frags + texts[i..k];
      }
    }
  }

  /** `content`, `total` and `truncated` describe keeping the first `k`
      texts, which fit in the budget, with the notice for the rest when the
      next one does not fit. */
  predicate KeepsFirst(texts: seq<string>, k: nat, content: string, total: nat, truncated: bool)
  {
    k <= |texts|
    && total == SumLen(texts[..k]) <= MaxChars
    && (truncated <==> k < |texts|)
    && (k < |texts| ==> SumLen(texts[..k + 1]) > MaxChars)
    && content == Concat(texts[..k]) + (if k < |texts| then Notice(|texts| - k) else "")
  }

  lemma PackContent(texts: seq<string>) returns (k: nat)
    ensures var p := Pack(texts);
            KeepsFirst(texts, k, Concat(p.fragments), p.total, p.noticed)
  {
    var p := Pack(texts);
    assert texts[..0] == [];
    k := PackFromShape(texts, 0, 0, []);
    assert texts[0..k] == texts[..k];
    assert [] + texts[..k] == texts[..k];
    if p.noticed {
      assert p.fragments == texts[..k] + [Notice(|texts| - k)];
      ConcatSnoc(texts[..k], Notice(|texts| - k));
    } else {
      assert p.fragments == texts[..k];
    }
  }

  /** The packing loop keeps the texts of the first meetings that fit, in
      order, counts exactly their characters, never exceeds the budget, and
      appends the notice exactly when a meeting is left out. */
  lemma PackKeepsFirst(texts: seq<string>)
    ensures var p := Pack(texts);
            exists k :: KeepsFirst(texts, k, Concat(p.fragments), p.total, p.noticed)
  {
    var k := PackContent(texts);
  }

  /** The earliest and latest of some parsed dates (`min` and `max`), as the
      position of one. */
  function EarliestAt(ds: seq<int>): (i: nat)
    requires |ds| > 0
    ensures i < |ds| && forall j :: 0 <= j < |ds| ==> ds[i] <= ds[j]
  {
    if |ds| == 1 then 0
    else
      var i := EarliestAt(ds[..|ds| - 1]);
      assert forall j :: 0 <= j < |ds| - 1 ==> ds[..|ds| - 1][j] == ds[j];
      if ds[|ds| - 1] < ds[i] then |ds| - 1 else i
  }

  function LatestAt(ds: seq<int>): (i: nat)
    requires |ds| > 0
    ensures i < |ds| && forall j :: 0 <= j < |ds| ==> ds[j] <= ds[i]
  {
    if |ds| == 1 then 0
    else
      var i := LatestAt(ds[..|ds| - 1]);
      assert forall j :: 0 <= j < |ds| - 1 ==> ds[..|ds| - 1][j] == ds[j];
      if ds[i] < ds[|ds| - 1] then |ds| - 1 else i
  }

  function Dates(ts: seq<Transcript>, parse: string -> Option<int>, now: int): (ds: seq<int>)
    ensures |ds| == |ts|
    ensures forall i :: 0 <= i < |ts| ==> ds[i] == ParseDate(ts[i], parse, now)
  {
    seq(|ts|, i requires 0 <= i < |ts| => ParseDate(ts[i], parse, now))
  }

  /** The metadata dict handed to the prompt. */
  datatype Metadata = Metadata(domain: string, meetingCount: nat, startDate: string, endDate: string,
                               totalChars: nat, truncated: bool)

  datatype Prepared = Prepared(content: string, metadata: Metadata)

  /** `prepare_for_gemini`, with the `truncated` flag as intended: set when a
      meeting was left out (see `TruncatedAsWritten` for the flag the code
      computes). Dates print through `show` (`strftime("%B %d, %Y")`). */
  function Prepare(domain: string, ts: seq<Transcript>, parse: string -> Option<int>, now: int,
                   show: int -> string): Result<Prepared, string>
  {
    if ts == [] then Failure(NoTranscripts)
    else
      var ds := Dates(ts, parse, now);
      var p := Pack(MeetingTexts(ts, parse, now, show));
      Success(Prepared(Concat(p.fragments),
                       Metadata(domain, |ts|, show(ds[EarliestAt(ds)]), show(ds[LatestAt(ds)]), p.total, p.noticed)))
  }

  /** The flag as the code computes it: fewer fragments than meetings. */
  function TruncatedAsWritten(p: Packed, n: nat): bool
  {
    |p.fragments| < n
  }

  /** `prepare_for_gemini` raises only on an empty list. */
  lemma PrepareFails(domain: string, ts: seq<Transcript>, parse: string -> Option<int>, now: int,
                     show: int -> string)
    ensures var r := Prepare(domain, ts, parse, now, show);
            (r.Failure? <==> ts == []) && (r.Failure? ==> r.error == NoTranscripts)
            && (r.Success? ==> r.value.metadata.domain == domain && r.value.metadata.meetingCount == |ts|)
  {
  }

  /** The content is the texts of the first meetings that fit in 1,500,000
      characters, in order, then the notice naming how many meetings were
      left out if any were; `total_chars` counts the meeting texts only. */
  lemma PrepareContent(domain: string, ts: seq<Transcript>, parse: string -> Option<int>, now: int,
                       show: int -> string)
    requires ts != []
    ensures var r := Prepare(domain, ts, parse, now, show);
            exists k :: KeepsFirst(MeetingTexts(ts, parse, now, show), k, r.value.content,
                                   r.value.metadata.totalChars, r.value.metadata.truncated)
  {
    var texts := MeetingTexts(ts, parse, now, show);
    var k := PackContent(texts);
    var r := Prepare(domain, ts, parse, now, show);
    assert r.value.content == Concat(Pack(texts).fragments);
    assert KeepsFirst(texts, k, r.value.content, r.value.metadata.totalChars, r.value.metadata.truncated);
  }

  /** The start and end dates print the earliest and the latest parsed date
      of the meetings. */
  lemma PrepareDateRange(domain: string, ts: seq<Transcript>, parse: string -> Option<int>, now: int,
                         show: int -> string)
    requires ts != []
    ensures var md := Prepare(domain, ts, parse, now, show).value.metadata;
            (exists i :: 0 <= i < |ts| && md.startDate == show(ParseDate(ts[i], parse, now))
                         && forall j :: 0 <= j < |ts| ==> ParseDate(ts[i], parse, now) <= ParseDate(ts[j], parse, now))
            && (exists i :: 0 <= i < |ts| && md.endDate == show(ParseDate(ts[i], parse, now))
                            && forall j :: 0 <= j < |ts| ==> ParseDate(ts[j], parse, now) <= ParseDate(ts[i], parse, now))
  {
    var ds := Dates(ts, parse, now);
    var lo := EarliestAt(ds);
    var hi := LatestAt(ds);
    var md := Prepare(domain, ts, parse, now, show).value.metadata;
    assert md.startDate == show(ds[lo]) && md.endDate == show(ds[hi]);
    forall j | 0 <= j < |ts|
      ensures ParseDate(ts[lo], parse, now) <= ParseDate(ts[j], parse, now) <= ParseDate(ts[hi], parse, now)
    {
      assert ds[lo] <= ds[j] <= ds[hi];
    }
  }

  lemma ConcatSnoc(xs: seq<string>, x: string)
    ensures Concat(xs + [x]) == Concat(xs) + x
  {
    assert (xs + [x])[..|xs|] == xs;
  }

  lemma {:induction false} SumLenMonotone(xs: seq<string>, i: nat, j: nat)
    requires i <= j <= |xs|
    ensures SumLen(xs[..i]) <= SumLen(xs[..j])
    decreases j - i
  {
    if i < j {
      SumLenMonotone(xs, i, j - 1);
      assert xs[..j][..j - 1] == xs[..j - 1];
    }
  }

  /** A prefix with more characters than another is the longer one. */
  lemma SumLenExceeds(xs: seq<string>, i: nat, j: nat)
    requires i <= |xs| && j <= |xs| && SumLen(xs[..i]) > SumLen(xs[..j])
    ensures i > j
  {
    if i <= j { SumLenMonotone(xs, i, j); }
  }

  /** As written, `truncated` is `len(formatted_transcripts) < len(transcripts)`:
      when all meetings but the last fit and the last does not, the notice
      takes the last meeting's place, so the count matches and the flag is
      false although a meeting was left out. */
  lemma TruncatedAsWrittenMissesLast(texts: seq<string>)
    requires |texts| >= 1
    requires SumLen(texts[..|texts| - 1]) <= MaxChars < SumLen(texts)
    ensures Pack(texts).noticed
    ensures !TruncatedAsWritten(Pack(texts), |texts|)
  {
    var n := |texts|;
    var p := Pack(texts);
    assert texts[..0] == [];
    assert texts[..n] == texts;
    var k := PackFromShape(texts, 0, 0, []);
    assert PackedUpTo(texts, 0, [], p, k);
    assert k < n;
    SumLenExceeds(texts, k + 1, n - 1);
    assert k == n - 1;
    assert p.fragments == [] + texts[0..n - 1] + [Notice(1)];
  }

  /** One meeting whose title alone exceeds the budget: the content is the
      notice only, and the flag as written is false. */
  lemma TruncatedAsWrittenExample(domain: string, parse: string -> Option<int>, now: int, show: int -> string)
    ensures var t := Blank.(title := Val(Repeat('a', MaxChars + 1)));
            var r := Prepare(domain, [t], parse, now, show);
            r.Success? && r.value.content == Notice(1) && r.value.metadata.truncated
            && !TruncatedAsWritten(Pack(MeetingTexts([t], parse, now, show)), 1)
  {
    var t := Blank.(title := Val(Repeat('a', MaxChars + 1)));
    var texts := MeetingTexts([t], parse, now, show);
    assert |MeetingHead(t, 0, show(ParseDate(t, parse, now)))| > MaxChars;
    assert |texts[0]| > MaxChars;
    assert texts[..0] == [] && texts[..1] == texts;
    assert SumLen(texts) == |texts[0]|;
    TruncatedAsWrittenMissesLast(texts);
    var k := PackContent(texts);
    assert k == 0;
    assert Concat([]) == "";
  }

  /** `meeting_text` as the loop body builds it. */
  method BuildMeetingText(t: Transcript, i: nat, date: string) returns (text: string)
    ensures text == MeetingText(t, i, date)
  {
    var head := "\n" + Repeat('=', 80) + "\n"
      + "MEETING " + NatToString(i + 1) + ": " + Shown(t.title, "Meeting " + NatToString(i + 1)) + "\n"
      + "Date: " + date + "\n"
      + "URL: " + Shown(t.transcriptUrl, "N/A") + "\n";
    var summary := "";
    if t.summary.Val? && Truthy(t.summary.value.overview) {
      summary := "\nSummary: " + t.summary.value.overview.value + "\n";
    }
    var body: string;
    if t.sentences.Val? && |t.sentences.value| > 0 {
      body := AppendSentenceLines(t.sentences.value);
    } else {
      body := "[No transcript content available]\n";
    }
    text := head + summary + ("\nTranscript:\n" + Repeat('-', 40) + "\n" + body);
  }

  /** The `for sentence in sentences` loop. */
  method AppendSentenceLines(ss: seq<Option<Sentence>>) returns (lines: string)
    ensures lines == SentenceBlock(ss)
  {
    lines := "";
    var j := 0;
    while j < |ss|
      invariant 0 <= j <= |ss|
      invariant lines == SentenceBlock(ss[..j])
    {
      assert ss[..j + 1][..j] == ss[..j];
      var sentence := ss[j];
      if sentence.Some? {
        var text := SpokenText(sentence.value);
        if text != "" {
          var line := Shown(sentence.value.speakerName, "Unknown") + ": " + text + "\n";
          lines := lines + line;
        }
      }
      j := j + 1;
    }
    assert ss[..j] == ss;
  }

  /** `prepare_for_gemini`. */
  method PrepareForModel(domain: string, ts: seq<Transcript>, parse: string -> Option<int>, now: int,
                         show: int -> string) returns (r: Result<Prepared, string>)
    ensures r == Prepare(domain, ts, parse, now, show)
  {
    if |ts| == 0 {
      return Failure(NoTranscripts);
    }
    var dates := Dates(ts, parse, now);
    var startDate := show(dates[EarliestAt(dates)]);
    var endDate := show(dates[LatestAt(dates)]);
    var fragments, total, noticed := PackMeetings(ts, parse, now, show);
    var content := Concat(fragments);
    r := Success(Prepared(content, Metadata(domain, |ts|, startDate, endDate, total, noticed)));
  }

  /** The `for i, transcript in enumerate(transcripts)` loop: the meeting
      texts, each one built as the loop body builds it, then packed. */
  method PackMeetings(ts: seq<Transcript>, parse: string -> Option<int>, now: int, show: int -> string)
    returns (fragments: seq<string>, total: nat, noticed: bool)
    ensures Packed(fragments, total, noticed) == Pack(MeetingTexts(ts, parse, now, show))
  {
    var texts: seq<string> := [];
    var i := 0;
    while i < |ts|
      invariant 0 <= i <= |ts|
      invariant texts == MeetingTexts(ts[..i], parse, now, show)
    {
      var text := BuildMeetingText(ts[i], i, show(ParseDate(ts[i], parse, now)));
      texts := texts + [text];
      i := i + 1;
      assert ts[..i][..i - 1] == ts[..i - 1];
    }
    assert ts[..i] == ts;
    fragments, total, noticed := PackTexts(texts);
  }

  /** Adding the meeting texts while they fit in the budget. */
  method PackTexts(texts: seq<string>) returns (fragments: seq<string>, total: nat, noticed: bool)
    ensures Packed(fragments, total, noticed) == Pack(texts)
  {
    fragments, total, noticed := [], 0, false;
    var i := 0;
    while i < |texts|
      invariant 0 <= i <= |texts|
      invariant PackFrom(texts, i, total, fragments) == Pack(texts)
    {
      var text := texts[i];
      if total + |text| > MaxChars {
        fragments := fragments + [Notice(|texts| - i)];
        noticed := true;
        return;
      }
      fragments := fragments + [text];
      total := total + |text|;
      i := i + 1;
    }
  }
}
