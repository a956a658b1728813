/** `find_meetings_by_participant_name` (generate_case_study_by_name.py):
    pages through the transcripts until 500 have been searched and keeps one
    record for each transcript with a speaker whose name contains the given
    name, ignoring case. */
module NameSearch {
  import opened Wrappers
  import opened Text
  import opened Records
  import opened FirefliesApi
  import opened Paging

  const MaxSearched := 500

  /** The `speakers` set of a transcript: the names of its named speakers,
      each once, in order of first appearance. */
  function Speakers(ss: seq<Option<Sentence>>): seq<string>
  {
    if ss == [] then []
    else
      var r0 := Speakers(ss[..|ss| - 1]);
      var s := ss[|ss| - 1];
      if NamedSpeaker(s) && s.value.speakerName.value !in r0 then r0 + [s.value.speakerName.value] else r0
  }

  /** The name of the speaker of sentence `i`. */
  ghost predicate SpeakerAt(ss: seq<Option<Sentence>>, i: int, x: string)
  {
    0 <= i < |ss| && NamedSpeaker(ss[i]) && ss[i].value.speakerName.value == x
  }

  ghost predicate SpeaksIn(ss: seq<Option<Sentence>>, x: string)
  {
    exists i :: SpeakerAt(ss, i, x)
  }

  /** `speakers` holds each named speaker once. */
  lemma {:induction false} SpeakersProperties(ss: seq<Option<Sentence>>)
    ensures var r := Speakers(ss);
            (forall x :: x in r <==> SpeaksIn(ss, x))
            && (forall i, j :: 0 <= i < j < |r| ==> r[i] != r[j])
  {
    if ss != [] {
      var init := ss[..|ss| - 1];
      SpeakersProperties(init);
      forall x ensures SpeaksIn(init, x) ==> SpeaksIn(ss, x) {
        if SpeaksIn(init, x) {
          var i :| SpeakerAt(init, i, x);
          assert SpeakerAt(ss, i, x);
        }
      }
      forall x ensures SpeaksIn(ss, x) ==> SpeaksIn(init, x) || SpeakerAt(ss, |ss| - 1, x) {
        if SpeaksIn(ss, x) {
          var i :| SpeakerAt(ss, i, x);
          if i < |ss| - 1 { assert SpeakerAt(init, i, x); }
        }
      }
      var r0 := Speakers(init);
      var r := Speakers(ss);
      var s := ss[|ss| - 1];
      if NamedSpeaker(s) {
        assert SpeakerAt(ss, |ss| - 1, s.value.speakerName.value);
      }
      if r != r0 {
        forall i, j | 0 <= i < j < |r| ensures r[i] != r[j] {
          if j == |r| - 1 { assert r[i] in r0; }
        }
      }
    }
  }

  /** `for speaker in speakers: if participant_name.lower() in speaker.lower()`,
      up to the `break`. */
  function FirstMatch(speakers: seq<string>, name: string): Option<string>
  {
    if speakers == [] then None
    else if ContainsIgnoringCase(speakers[0], name) then Some(speakers[0])
    else FirstMatch(speakers[1..], name)
  }

  /** The speaker picked matches, and none is picked only when none matches. */
  lemma {:induction false} FirstMatchProperties(speakers: seq<string>, name: string)
    ensures var r := FirstMatch(speakers, name);
            (r.Some? ==> r.value in speakers && ContainsIgnoringCase(r.value, name))
            && (r.None? <==> forall x :: x in speakers ==> !ContainsIgnoringCase(x, name))
  {
    if speakers != [] && !ContainsIgnoringCase(speakers[0], name) {
      FirstMatchProperties(speakers[1..], name);
      assert speakers == [speakers[0]] + speakers[1..];
    }
  }

  /** The speaker a transcript is matched by. */
  function MatchedSpeaker(t: Transcript, name: string): Option<string>
  {
    FirstMatch(Speakers(Items(t.sentences)), name)
  }

  /** A transcript matches exactly when one of its speakers' names contains
      `name`, ignoring case, and the matched speaker is one of those; a
      missing, null or empty list of sentences never matches. */
  lemma MatchedSpeakerProperties(t: Transcript, name: string)
    ensures var ss := Items(t.sentences);
            var r := MatchedSpeaker(t, name);
            (ss == [] ==> r.None?)
            && (r.Some? ==> ContainsIgnoringCase(r.value, name) && SpeaksIn(ss, r.value))
            && (r.None? <==> forall x :: SpeaksIn(ss, x) ==> !ContainsIgnoringCase(x, name))
  {
    SpeakersProperties(Items(t.sentences));
    FirstMatchProperties(Speakers(Items(t.sentences)), name);
  }

  /** The speaker a transcript is taken for, if any: the test the batch
      scan and the paging loop are stated over. */
  type Pick = Transcript -> Option<string>

  /** The participant-name test for a fixed name. */
  function NameTest(name: string): Pick
  {
    t => MatchedSpeaker(t, name)
  }

  /** One entry of `matching_meetings`. */
  datatype Match = Match(id: Field<string>, title: Field<string>, date: Field<string>, url: Field<string>,
                         matchedSpeaker: string)

  /** The record built for a matching transcript, or `None` when one of the
      four keys it reads is missing (a `KeyError`). */
  function RecordOf(t: Transcript, speaker: string): (r: Option<Match>)
    ensures r.Some? <==> !t.id.Absent? && !t.title.Absent? && !t.dateString.Absent? && !t.transcriptUrl.Absent?
  {
    if t.id.Absent? || t.title.Absent? || t.dateString.Absent? || t.transcriptUrl.Absent? then None
    else Some(Match(t.id, t.title, t.dateString, t.transcriptUrl, speaker))
  }

  /** The records of a batch, and whether building one raised. */
  datatype Scanned = Scanned(records: seq<Match>, raised: bool)

  /** `for transcript in batch`, up to the first `KeyError`. */
  function ScanBatch(items: seq<Transcript>, pick: Pick): Scanned
  {
    if items == [] then Scanned([], false)
    else
      var v := ScanBatch(items[..|items| - 1], pick);
      var t := items[|items| - 1];
      if v.raised then v
      else
        match pick(t)
        case None => v
        case Some(speaker) =>
          match RecordOf(t, speaker)
          case None => Scanned(v.records, true)
          case Some(m) => Scanned(v.records + [m], false)
  }

  datatype Step = Stop(records: seq<Match>, total: nat, interrupted: bool) | GoOn(records: seq<Match>, total: nat)

  /** One pass of `while total_searched < 500` at offset `skip`: a query that
      raises, a missing or empty batch end the loop; an error inside the batch
      ends it before `total_searched` counts the batch; a short batch ends it
      after. */
  function NameStep(pages: Pages, pick: Pick, limit: nat, skip: nat, total: nat, acc: seq<Match>): (r: Step)
    ensures r.GoOn? ==> r.total > total
  {
    match pages(skip)
    case Batch(items) =>
      if items == [] then Stop(acc, total, false)
      else
        var sc := ScanBatch(items, pick);
        if sc.raised then Stop(acc + sc.records, total, true)
        else if |items| < limit then Stop(acc + sc.records, total + |items|, false)
        else GoOn(acc + sc.records, total + |items|)
    case _ => Stop(acc, total, false)
  }

  /** What the loop returns and counts, the offsets it queried, and whether
      it ended inside a batch. */
  datatype Searched = Searched(records: seq<Match>, total: nat, queries: seq<nat>, interrupted: bool)

  function NameSearch(pages: Pages, pick: Pick, limit: nat, skip: nat, total: nat, acc: seq<Match>): Searched
    decreases MaxSearched - total
  {
    if total >= MaxSearched then Searched(acc, total, [], false)
    else
      match NameStep(pages, pick, limit, skip, total, acc)
      case Stop(rs, t, i) => Searched(rs, t, [skip], i)
      case GoOn(rs, t) =>
        var rest := NameSearch(pages, pick, limit, skip + limit, t, rs);
        Searched(rest.records, rest.total, [skip] + rest.queries, rest.interrupted)
  }

  /** `find_meetings_by_participant_name(participant_name, limit)`. */
  function FindByName(server: Server, name: string, limit: nat): Searched
  {
    NameSearch(PagesOf(server), NameTest(name), limit, 0, 0, [])
  }

  // ----- what the search returns -----

  /** The records of the batches at the offsets `qs`, batch after batch. */
  function AllRecords(pages: Pages, pick: Pick, qs: seq<nat>): seq<Match>
  {
    if qs == [] then [] else ScanBatch(PageItems(pages(qs[0])), pick).records + AllRecords(pages, pick, qs[1..])
  }

  lemma StopSearch(pages: Pages, pick: Pick, limit: nat, skip: nat, total: nat, acc: seq<Match>)
    requires total < MaxSearched && NameStep(pages, pick, limit, skip, total, acc).Stop?
    ensures var st := NameStep(pages, pick, limit, skip, total, acc);
            NameSearch(pages, pick, limit, skip, total, acc) == Searched(st.records, st.total, [skip], st.interrupted)
  {
  }

  lemma GoOnSearch(pages: Pages, pick: Pick, limit: nat, skip: nat, total: nat, acc: seq<Match>)
    requires total < MaxSearched && NameStep(pages, pick, limit, skip, total, acc).GoOn?
    ensures var st := NameStep(pages, pick, limit, skip, total, acc);
            var rest := NameSearch(pages, pick, limit, skip + limit, st.total, st.records);
            NameSearch(pages, pick, limit, skip, total, acc)
              == Searched(rest.records, rest.total, [skip] + rest.queries, rest.interrupted)
  {
  }

  /** A pass adds the records of its batch, partial ones included, and counts
      the batch unless it was interrupted. */
  lemma StepCounts(pages: Pages, pick: Pick, limit: nat, skip: nat, total: nat, acc: seq<Match>)
    ensures var st := NameStep(pages, pick, limit, skip, total, acc);
            var n := |PageItems(pages(skip))|;
            st.records == acc + ScanBatch(PageItems(pages(skip)), pick).records
            && (st.GoOn? ==> st.total == total + n)
            && (st.Stop? ==> st.total + (if st.interrupted then n else 0) == total + n)
  {
    assert acc + [] == acc;
  }

  lemma AllRecordsCons(pages: Pages, pick: Pick, q: nat, qs: seq<nat>)
    ensures AllRecords(pages, pick, [q] + qs) == ScanBatch(PageItems(pages(q)), pick).records + AllRecords(pages, pick, qs)
  {
    assert ([q] + qs)[1..] == qs;
  }

  /** The records are the ones found before and those of every batch
      queried, in order: an error keeps what was found. */
  lemma {:induction false} SearchRecords(pages: Pages, pick: Pick, limit: nat, skip: nat, total: nat, acc: seq<Match>)
    ensures var r := NameSearch(pages, pick, limit, skip, total, acc);
            r.records == acc + AllRecords(pages, pick, r.queries)
    decreases MaxSearched - total
  {
    if total >= MaxSearched {
      assert acc + [] == acc;
    } else if NameStep(pages, pick, limit, skip, total, acc).Stop? {
      RecordsAtStop(pages, pick, limit, skip, total, acc);
    } else {
      var st := NameStep(pages, pick, limit, skip, total, acc);
      SearchRecords(pages, pick, limit, skip + limit, st.total, st.records);
      RecordsAtGoOn(pages, pick, limit, skip, total, acc);
    }
  }

  lemma RecordsAtStop(pages: Pages, pick: Pick, limit: nat, skip: nat, total: nat, acc: seq<Match>)
    requires total < MaxSearched && NameStep(pages, pick, limit, skip, total, acc).Stop?
    ensures var r := NameSearch(pages, pick, limit, skip, total, acc);
            r.records == acc + AllRecords(pages, pick, r.queries)
  {
    StepCounts(pages, pick, limit, skip, total, acc);
    StopSearch(pages, pick, limit, skip, total, acc);
    AllRecordsCons(pages, pick, skip, []);
    var sb := ScanBatch(PageItems(pages(skip)), pick).records;
    assert sb + [] == sb;
  }

  lemma RecordsAtGoOn(pages: Pages, pick: Pick, limit: nat, skip: nat, total: nat, acc: seq<Match>)
    requires total < MaxSearched && NameStep(pages, pick, limit, skip, total, acc).GoOn?
    requires var st := NameStep(pages, pick, limit, skip, total, acc);
             var rest := NameSearch(pages, pick, limit, skip + limit, st.total, st.records);
             rest.records == st.records + AllRecords(pages, pick, rest.queries)
    ensures var r := NameSearch(pages, pick, limit, skip, total, acc);
            r.records == acc + AllRecords(pages, pick, r.queries)
  {
    var st := NameStep(pages, pick, limit, skip, total, acc);
    var rest := NameSearch(pages, pick, limit, skip + limit, st.total, st.records);
    StepCounts(pages, pick, limit, skip, total, acc);
    GoOnSearch(pages, pick, limit, skip, total, acc);
    AllRecordsCons(pages, pick, skip, rest.queries);
    var sb := ScanBatch(PageItems(pages(skip)), pick).records;
    ConcatAssoc(acc, sb, AllRecords(pages, pick, rest.queries));
  }

  /** `total_searched` counts every batch handed over but an interrupted
      last one. */
  lemma {:induction false} SearchTotal(pages: Pages, pick: Pick, limit: nat, skip: nat, total: nat, acc: seq<Match>)
    ensures var r := NameSearch(pages, pick, limit, skip, total, acc);
            (r.interrupted ==> r.queries != [])
            && r.total + (if r.interrupted then |PageItems(pages(r.queries[|r.queries| - 1]))| else 0)
               == total + BatchTotal(pages, r.queries)
    decreases MaxSearched - total
  {
    var r := NameSearch(pages, pick, limit, skip, total, acc);
    if total < MaxSearched {
      var st := NameStep(pages, pick, limit, skip, total, acc);
      StepCounts(pages, pick, limit, skip, total, acc);
      if st.Stop? {
        StopSearch(pages, pick, limit, skip, total, acc);
        assert BatchTotal(pages, [skip]) == |PageItems(pages(skip))|;
      } else {
        GoOnSearch(pages, pick, limit, skip, total, acc);
        var rest := NameSearch(pages, pick, limit, skip + limit, st.total, st.records);
        SearchTotal(pages, pick, limit, skip + limit, st.total, st.records);
        assert ([skip] + rest.queries)[1..] == rest.queries;
        if rest.interrupted {
          assert r.queries[|r.queries| - 1] == rest.queries[|rest.queries| - 1];
        }
      }
    }
  }

  /** The queries go to the offsets skip, skip + limit, ... */
  lemma {:induction false} SearchOffsets(pages: Pages, pick: Pick, limit: nat, skip: nat, total: nat, acc: seq<Match>)
    ensures SteppedFrom(NameSearch(pages, pick, limit, skip, total, acc).queries, skip, limit)
    decreases MaxSearched - total
  {
    if total < MaxSearched {
      var st := NameStep(pages, pick, limit, skip, total, acc);
      if st.Stop? {
        StopSearch(pages, pick, limit, skip, total, acc);
      } else {
        GoOnSearch(pages, pick, limit, skip, total, acc);
        var rest := NameSearch(pages, pick, limit, skip + limit, st.total, st.records);
        SearchOffsets(pages, pick, limit, skip + limit, st.total, st.records);
        SteppedCons(rest.queries, skip, limit);
      }
    }
  }

  /** Each query is sent while fewer than 500 transcripts were counted. */
  lemma {:induction false} SearchBelowCap(pages: Pages, pick: Pick, limit: nat, skip: nat, total: nat, acc: seq<Match>, k: nat)
    requires k < |NameSearch(pages, pick, limit, skip, total, acc).queries|
    ensures var qs := NameSearch(pages, pick, limit, skip, total, acc).queries;
            total + BatchTotal(pages, qs[..k]) < MaxSearched
    decreases MaxSearched - total
  {
    var qs := NameSearch(pages, pick, limit, skip, total, acc).queries;
    var st := NameStep(pages, pick, limit, skip, total, acc);
    if k == 0 {
      assert qs[..0] == [];
    } else {
      GoOnSearch(pages, pick, limit, skip, total, acc);
      StepCounts(pages, pick, limit, skip, total, acc);
      var rest := NameSearch(pages, pick, limit, skip + limit, st.total, st.records).queries;
      SearchBelowCap(pages, pick, limit, skip + limit, st.total, st.records, k - 1);
      assert qs[..k] == [skip] + rest[..k - 1];
      BatchTotalCons(pages, skip, rest[..k - 1]);
    }
  }

  /** The query at `q` handed over a full batch scanned without error. */
  predicate FullCleanBatch(pages: Pages, q: nat, limit: nat, pick: Pick)
  {
    pages(q).Batch? && |pages(q).items| > 0 && |pages(q).items| >= limit && !ScanBatch(pages(q).items, pick).raised
  }

  /** The loop goes on only after a full batch without error: it stops on a
      failing query, a missing, empty or short batch, or an error inside a
      batch. */
  lemma {:induction false} SearchContinues(pages: Pages, pick: Pick, limit: nat, skip: nat, total: nat, acc: seq<Match>, k: nat)
    requires k < |NameSearch(pages, pick, limit, skip, total, acc).queries| - 1
    ensures FullCleanBatch(pages, NameSearch(pages, pick, limit, skip, total, acc).queries[k], limit, pick)
    decreases MaxSearched - total
  {
    var qs := NameSearch(pages, pick, limit, skip, total, acc).queries;
    var st := NameStep(pages, pick, limit, skip, total, acc);
    if total < MaxSearched && st.GoOn? {
      GoOnSearch(pages, pick, limit, skip, total, acc);
      var rest := NameSearch(pages, pick, limit, skip + limit, st.total, st.records).queries;
      if k > 0 {
        SearchContinues(pages, pick, limit, skip + limit, st.total, st.records, k - 1);
        assert qs[k] == rest[k - 1];
      }
    }
  }

  /** `m` is the record of the matching transcript `t`. */
  predicate RecordFrom(m: Match, t: Transcript, pick: Pick)
  {
    pick(t).Some? && m == Match(t.id, t.title, t.dateString, t.transcriptUrl, pick(t).value)
  }

  /** Each record of a batch comes from its own transcript, in batch order,
      with that transcript's id, title, date string and URL and the speaker
      it matched. */
  lemma {:induction false} RecordOrigins(items: seq<Transcript>, pick: Pick) returns (o: seq<nat>)
    ensures var rs := ScanBatch(items, pick).records;
            |o| == |rs| <= |items|
            && (forall k :: 0 <= k < |o| ==> o[k] < |items|)
            && (forall k, l :: 0 <= k < l < |o| ==> o[k] < o[l])
            && (forall k :: 0 <= k < |o| ==> RecordFrom(rs[k], items[o[k]], pick))
  {
    if items == [] {
      o := [];
    } else {
      var n := |items| - 1;
      var init := items[..n];
      var o0 := RecordOrigins(init, pick);
      forall k | 0 <= k < |o0| ensures init[o0[k]] == items[o0[k]] {
      }
      var v := ScanBatch(init, pick);
      var r := ScanBatch(items, pick);
      if r.records == v.records {
        o := o0;
      } else {
        o := o0 + [n];
        assert r.records == v.records + [r.records[|r.records| - 1]];
      }
    }
  }

  /** Building the record of `t` raises: it matches, but a key is missing. */
  predicate Fails(t: Transcript, pick: Pick)
  {
    pick(t).Some? && RecordOf(t, pick(t).value).None?
  }

  /** The position of the first transcript whose record raises, or the
      length of `items` when none does. */
  function FirstFailure(items: seq<Transcript>, pick: Pick): (n: nat)
    ensures n <= |items|
  {
    if items == [] then 0
    else
      var n := FirstFailure(items[..|items| - 1], pick);
      if n < |items| - 1 then n
      else if Fails(items[|items| - 1], pick) then |items| - 1
      else |items|
  }

  /** The records of every matching transcript of `items` whose four keys are
      present, in order. */
  function Recorded(items: seq<Transcript>, pick: Pick): seq<Match>
  {
    if items == [] then []
    else
      var t := items[|items| - 1];
      Recorded(items[..|items| - 1], pick)
        + (if pick(t).Some? && RecordOf(t, pick(t).value).Some? then [RecordOf(t, pick(t).value).value] else [])
  }

  /** No transcript before the first failure fails, and the one at it does. */
  lemma {:induction false} FirstFailureProperties(items: seq<Transcript>, pick: Pick)
    ensures var n := FirstFailure(items, pick);
            (forall k :: 0 <= k < n ==> !Fails(items[k], pick))
            && (n < |items| ==> Fails(items[n], pick))
  {
    if items != [] {
      var init := items[..|items| - 1];
      FirstFailureProperties(init, pick);
      forall k | 0 <= k < FirstFailure(init, pick) ensures items[k] == init[k] { }
    }
  }

  /** The batch loop keeps exactly the records of the matching transcripts
      before the first one whose record raises, and it raises exactly when
      there is such a transcript. */
  lemma {:induction false} ScanBatchSpec(items: seq<Transcript>, pick: Pick)
    ensures var n := FirstFailure(items, pick);
            var sc := ScanBatch(items, pick);
            (sc.raised <==> n < |items|) && sc.records == Recorded(items[..n], pick)
  {
    if items != [] {
      var init := items[..|items| - 1];
      ScanBatchSpec(init, pick);
      var n0 := FirstFailure(init, pick);
      assert items[..n0] == init[..n0];
      if n0 == |init| {
        assert init[..n0] == init;
        assert items[..|items|] == items;
      }
    }
  }

  /** `m` is among the records of `items` exactly when some matching
      transcript of `items` has `m` as its record. */
  lemma {:induction false} RecordedMembers(items: seq<Transcript>, pick: Pick, m: Match)
    ensures m in Recorded(items, pick)
            <==> exists k :: 0 <= k < |items| && pick(items[k]).Some? && RecordOf(items[k], pick(items[k]).value) == Some(m)
  {
    if items != [] {
      var init := items[..|items| - 1];
      RecordedMembers(init, pick, m);
      if m in Recorded(init, pick) {
        var k :| 0 <= k < |init| && pick(init[k]).Some? && RecordOf(init[k], pick(init[k]).value) == Some(m);
        assert items[k] == init[k];
      }
      if exists k :: 0 <= k < |items| && pick(items[k]).Some? && RecordOf(items[k], pick(items[k]).value) == Some(m) {
        var k :| 0 <= k < |items| && pick(items[k]).Some? && RecordOf(items[k], pick(items[k]).value) == Some(m);
        if k < |init| { assert init[k] == items[k]; }
      }
    }
  }

  /** The records of a batch are in the records of every query list that
      includes the batch's offset. */
  lemma {:induction false} AllRecordsHas(pages: Pages, pick: Pick, qs: seq<nat>, n: nat, m: Match)
    requires n < |qs| && m in ScanBatch(PageItems(pages(qs[n])), pick).records
    ensures m in AllRecords(pages, pick, qs)
  {
    if n > 0 {
      AllRecordsHas(pages, pick, qs[1..], n - 1, m);
    }
  }

  /** The search is complete: every matching transcript of a queried batch
      that comes before the batch's first `KeyError` yields its record. */
  lemma NameSearchComplete(pages: Pages, pick: Pick, limit: nat, n: nat, k: nat)
    requires n < |NameSearch(pages, pick, limit, 0, 0, []).queries|
    requires var items := PageItems(pages(NameSearch(pages, pick, limit, 0, 0, []).queries[n]));
             k < FirstFailure(items, pick) && pick(items[k]).Some?
    ensures var r := NameSearch(pages, pick, limit, 0, 0, []);
            var t := PageItems(pages(r.queries[n]))[k];
            RecordOf(t, pick(t).value).Some? && RecordOf(t, pick(t).value).value in r.records
  {
    var r := NameSearch(pages, pick, limit, 0, 0, []);
    var items := PageItems(pages(r.queries[n]));
    var t := items[k];
    var f := FirstFailure(items, pick);
    FirstFailureProperties(items, pick);
    ScanBatchSpec(items, pick);
    assert items[..f][k] == t;
    RecordedMembers(items[..f], pick, RecordOf(t, pick(t).value).value);
    AllRecordsHas(pages, pick, r.queries, n, RecordOf(t, pick(t).value).value);
    NameSearchProperties(pages, pick, limit);
  }

  /** `find_meetings_by_participant_name` records every transcript of a
      queried batch, before the batch's first `KeyError`, that has a speaker
      whose name contains `name` ignoring case. */
  lemma FindByNameComplete(server: Server, name: string, limit: nat, n: nat, k: nat)
    requires n < |FindByName(server, name, limit).queries|
    requires var items := PageItems(PagesOf(server)(FindByName(server, name, limit).queries[n]));
             k < FirstFailure(items, NameTest(name))
             && exists x :: SpeaksIn(Items(items[k].sentences), x) && ContainsIgnoringCase(x, name)
    ensures var r := FindByName(server, name, limit);
            var t := PageItems(PagesOf(server)(r.queries[n]))[k];
            MatchedSpeaker(t, name).Some?
            && Some(Match(t.id, t.title, t.dateString, t.transcriptUrl, MatchedSpeaker(t, name).value)) == RecordOf(t, MatchedSpeaker(t, name).value)
            && RecordOf(t, MatchedSpeaker(t, name).value).value in r.records
  {
    var t := PageItems(PagesOf(server)(FindByName(server, name, limit).queries[n]))[k];
    MatchedSpeakerProperties(t, name);
    FirstFailureProperties(PageItems(PagesOf(server)(FindByName(server, name, limit).queries[n])), NameTest(name));
    NameSearchComplete(PagesOf(server), NameTest(name), limit, n, k);
  }

  /** The search from offset 0: records from the batches queried, in order,
      the count of the batches handed over, one query per step of `limit`,
      each sent below 500 counted transcripts, and every query but the last
      a full batch scanned without error. */
  lemma NameSearchProperties(pages: Pages, pick: Pick, limit: nat)
    ensures var r := NameSearch(pages, pick, limit, 0, 0, []);
            var qs := r.queries;
            |qs| >= 1 && Stepped(qs, limit)
            && r.records == AllRecords(pages, pick, qs)
            && r.total + (if r.interrupted then |PageItems(pages(qs[|qs| - 1]))| else 0) == BatchTotal(pages, qs)
            && (forall k :: 0 <= k < |qs| ==> BatchTotal(pages, qs[..k]) < MaxSearched)
            && (forall k :: 0 <= k < |qs| - 1 ==> FullCleanBatch(pages, qs[k], limit, pick))
  {
    var r := NameSearch(pages, pick, limit, 0, 0, []);
    SearchRecords(pages, pick, limit, 0, 0, []);
    assert [] + AllRecords(pages, pick, r.queries) == AllRecords(pages, pick, r.queries);
    SearchTotal(pages, pick, limit, 0, 0, []);
    SearchOffsets(pages, pick, limit, 0, 0, []);
    forall k | 0 <= k < |r.queries| ensures BatchTotal(pages, r.queries[..k]) < MaxSearched {
      SearchBelowCap(pages, pick, limit, 0, 0, [], k);
    }
    forall k | 0 <= k < |r.queries| - 1 ensures FullCleanBatch(pages, r.queries[k], limit, pick) {
      SearchContinues(pages, pick, limit, 0, 0, [], k);
    }
  }

  // ----- the loops -----

  /** The `speakers` loop; `add` on a set keeps one copy of each name. */
  method SpeakersOf(sentences: seq<Option<Sentence>>) returns (speakers: seq<string>)
    ensures speakers == Speakers(sentences)
  {
    speakers := [];
    for i := 0 to |sentences|
      invariant speakers == Speakers(sentences[..i])
    {
      assert sentences[..i + 1][..i] == sentences[..i];
      var sentence := sentences[i];
      if sentence.Some? && Truthy(sentence.value.speakerName) && sentence.value.speakerName.value !in speakers {
        speakers := speakers + [sentence.value.speakerName.value];
      }
    }
    assert sentences[..|sentences|] == sentences;
  }

  /** `for speaker in speakers`, up to the first match. */
  method MatchOf(speakers: seq<string>, name: string) returns (r: Option<string>)
    ensures r == FirstMatch(speakers, name)
  {
    for i := 0 to |speakers|
      invariant FirstMatch(speakers[i..], name) == FirstMatch(speakers, name)
    {
      assert speakers[i..][1..] == speakers[i + 1..];
      if Contains(Lower(speakers[i]), Lower(name)) {
        return Some(speakers[i]);
      }
    }
    return None;
  }

  lemma {:induction false} RaisedStays(items: seq<Transcript>, pick: Pick, i: nat, n: nat)
    requires i <= n <= |items| && ScanBatch(items[..i], pick).raised
    ensures ScanBatch(items[..n], pick) == ScanBatch(items[..i], pick)
    decreases n - i
  {
    if i < n {
      RaisedStays(items, pick, i, n - 1);
      assert items[..n][..n - 1] == items[..n - 1];
    }
  }

  /** `pick` is the participant-name test for `name`. The trigger keeps the
      test from being unfolded where only `pick` is reasoned about. */
  ghost predicate Picks(pick: Pick, name: string)
  {
    forall t {:trigger MatchedSpeaker(t, name)} :: pick(t) == MatchedSpeaker(t, name)
  }

  /** `for transcript in batch`. */
  method ScanBatchFor(batch: seq<Transcript>, name: string, ghost pick: Pick) returns (records: seq<Match>, raised: bool)
    requires Picks(pick, name)
    ensures Scanned(records, raised) == ScanBatch(batch, pick)
  {
    records, raised := [], false;
    for i := 0 to |batch|
      invariant Scanned(records, false) == ScanBatch(batch[..i], pick)
    {
      assert batch[..i + 1][..i] == batch[..i];
      var t := batch[i];
      var sentences := Items(t.sentences);
      var speakers: seq<string> := [];
      if sentences != [] {
        speakers := SpeakersOf(sentences);
      }
      var matched := MatchOf(speakers, name);
      assert matched == MatchedSpeaker(t, name);
      if matched.Some? {
        if t.id.Absent? || t.title.Absent? || t.dateString.Absent? || t.transcriptUrl.Absent? {
          raised := true;
          RaisedStays(batch, pick, i + 1, |batch|);
          assert batch[..|batch|] == batch;
          return;
        }
        records := records + [Match(t.id, t.title, t.dateString, t.transcriptUrl, matched.value)];
      }
    }
    assert batch[..|batch|] == batch;
  }

  /** One pass of `while total_searched < 500`; `stop` is a `break`. */
  method NamePass(server: Server, name: string, ghost pick: Pick, limit: nat, skip: nat, total: nat, acc: seq<Match>)
    returns (records: seq<Match>, nextSkip: nat, newTotal: nat, stop: bool)
    requires Picks(pick, name)
    ensures var st := NameStep(PagesOf(server), pick, limit, skip, total, acc);
            records == st.records && newTotal == st.total && (stop <==> st.Stop?)
            && (st.GoOn? ==> nextSkip == skip + limit)
  {
    var page := PageOf(ExecuteQuery(server(skip)));
    if !page.Batch? || page.items == [] {
      return acc, skip, total, true;
    }
    var batch := page.items;
    var found, raised := ScanBatchFor(batch, name, pick);
    records := acc + found;
    if raised {
      return records, skip, total, true;
    }
    nextSkip := skip + limit;
    newTotal := total + |batch|;
    stop := |batch| < limit;
  }

  /** `find_meetings_by_participant_name`, with `total_searched` handed back
      beside the records. */
  method FindMeetingsByParticipantName(server: Server, name: string, limit: nat)
    returns (matching: seq<Match>, totalSearched: nat)
    ensures matching == FindByName(server, name, limit).records
    ensures totalSearched == FindByName(server, name, limit).total
  {
    ghost var pages := PagesOf(server);
    ghost var pick := NameTest(name);
    ghost var target := FindByName(server, name, limit);
    forall t ensures pick(t) == MatchedSpeaker(t, name) {
    }
    matching := [];
    var skip: nat := 0;
    totalSearched := 0;
    while totalSearched < MaxSearched
      invariant NameSearch(pages, pick, limit, skip, totalSearched, matching).records == target.records
      invariant NameSearch(pages, pick, limit, skip, totalSearched, matching).total == target.total
      decreases MaxSearched - totalSearched
    {
      ghost var s0, t0, a0 := skip, totalSearched, matching;
      var stop;
      matching, skip, totalSearched, stop := NamePass(server, name, pick, limit, skip, totalSearched, matching);
      if stop {
        StopSearch(pages, pick, limit, s0, t0, a0);
        assert matching == target.records && totalSearched == target.total;
        return;
      }
      GoOnSearch(pages, pick, limit, s0, t0, a0);
    }
    CapReached(pages, pick, limit, skip, totalSearched, matching);
  }

  lemma CapReached(pages: Pages, pick: Pick, limit: nat, skip: nat, total: nat, acc: seq<Match>)
    requires total >= MaxSearched
    ensures NameSearch(pages, pick, limit, skip, total, acc) == Searched(acc, total, [], false)
  {
  }
}
