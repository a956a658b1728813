/** `EnhancedCaseStudyGenerator` (generate_case_study_enhanced.py): finds a
    domain's meetings through a table of known participant names, matched
    case-insensitively against the speakers of each transcript, and builds a
    prompt from their titles, summaries and key discussion points. */
module EnhancedGenerator {
  import opened Wrappers
  import opened Text
  import opened Records
  import opened Sorting
  import opened FirefliesApi
  import opened Paging

  // ----- get_participants_for_domain -----

  /** The domain as the constructor keeps it: `domain.lower().strip()`. */
  function DomainKey(domain: string): string
  {
    Strip(Lower(domain))
  }

  /** `self.domain_participants.get(self.domain, [])`. */
  function ParticipantsFor(mapping: map<string, seq<string>>, domain: string): seq<string>
  {
    if DomainKey(domain) in mapping then mapping[DomainKey(domain)] else []
  }

  /** The mapping is looked up by the lower-cased, stripped domain, so the
      case and surrounding whitespace of the domain do not matter; an unknown
      domain has no participants, and an empty domain is not rejected. */
  lemma ParticipantsForProperties(mapping: map<string, seq<string>>, domain: string)
    ensures var k := DomainKey(domain);
            IsLowerCase(k) && DomainKey(k) == k
            && ParticipantsFor(mapping, k) == ParticipantsFor(mapping, domain)
            && (k in mapping ==> ParticipantsFor(mapping, domain) == mapping[k])
            && (k !in mapping ==> ParticipantsFor(mapping, domain) == [])
  {
    var l := Lower(domain);
    var k := Strip(l);
    StripLowerCase(l);
    LowerOfLowerCase(k);
    StripIdempotent(l);
  }

  // ----- find_meetings_by_participants -----

  const Limit := 10
  const MaxMeetings := 300

  /** Some speaker of `t` has a name containing `p`, ignoring case. Missing,
      null or empty sentences give no speakers. */
  predicate SpeaksIn(t: Transcript, p: string)
  {
    var ss := Items(t.sentences);
    exists i :: 0 <= i < |ss| && NamedSpeaker(ss[i]) && ContainsIgnoringCase(ss[i].value.speakerName.value, p)
  }

  /** The `seen_ids` entry of a transcript whose `id` key is present. */
  function IdKey(t: Transcript): Option<string>
  {
    if t.id.Val? then Some(t.id.value) else None
  }

  function IdSet(ms: seq<Transcript>): set<Option<string>>
  {
    if ms == [] then {} else IdSet(ms[..|ms| - 1]) + {IdKey(ms[|ms| - 1])}
  }

  /** `seen_ids` and `all_meetings`. */
  datatype Found = Found(seen: set<Option<string>>, meetings: seq<Transcript>)

  /** The state after a transcript, and whether the body raised (a `KeyError`,
      which ends the participant's search). */
  datatype Visit = Visit(found: Found, raised: bool)

  /** The loop body for one transcript of the batch: a matching transcript
      with no `id` key raises; one not yet seen is added, after which
      printing its missing `title` raises. */
  function VisitOne(f: Found, t: Transcript, p: string): Visit
  {
    if !SpeaksIn(t, p) then Visit(f, false)
    else if t.id.Absent? then Visit(f, true)
    else if IdKey(t) in f.seen then Visit(f, false)
    else Visit(Found(f.seen + {IdKey(t)}, f.meetings + [t]), t.title.Absent?)
  }

  /** `for transcript in batch`, up to the first that raises. */
  function VisitBatch(f: Found, items: seq<Transcript>, p: string): Visit
  {
    if items == [] then Visit(f, false)
    else
      var v := VisitBatch(f, items[..|items| - 1], p);
      if v.raised then v else VisitOne(v.found, items[|items| - 1], p)
  }

  datatype Next = Done(found: Found) | More(found: Found)

  /** One pass of `while skip < max_meetings` for participant `p`: a query
      that raises, a missing or empty batch, an error inside the batch or a
      short batch ends the search for `p`. */
  function ParticipantStep(pages: Pages, p: string, skip: nat, f: Found): Next
  {
    match pages(skip)
    case Raised(_) => Done(f)
    case Exhausted => Done(f)
    case Batch(items) =>
      var v := VisitBatch(f, items, p);
      if v.raised || |items| < Limit || skip + Limit >= MaxMeetings then Done(v.found)
      else More(v.found)
  }

  datatype Searched = Searched(found: Found, queries: seq<nat>)

  function ParticipantSearch(pages: Pages, p: string, skip: nat, f: Found): (r: Searched)
    requires skip < MaxMeetings
    ensures |r.queries| >= 1 && r.queries[0] == skip
    decreases MaxMeetings - skip
  {
    match ParticipantStep(pages, p, skip, f)
    case Done(found) => Searched(found, [skip])
    case More(found) =>
      if skip + Limit < MaxMeetings then
        var rest := ParticipantSearch(pages, p, skip + Limit, found);
        Searched(rest.found, [skip] + rest.queries)
      else Searched(found, [skip])
  }

  /** `for participant in participants`, each searched from offset 0. */
  function SearchAll(pages: Pages, ps: seq<string>): Found
  {
    if ps == [] then Found({}, [])
    else ParticipantSearch(pages, ps[|ps| - 1], 0, SearchAll(pages, ps[..|ps| - 1])).found
  }

  /** The sort key `x.get("date", "")`. */
  function DateKeyOf(t: Transcript): DateKey
  {
    match t.date
    case Absent => Label("")
    case Null => NoKey
    case Val(ms) => Stamp(ms)
  }

  function DateKeys(ts: seq<Transcript>): (ks: seq<DateKey>)
    ensures |ks| == |ts| && forall i :: 0 <= i < |ts| ==> ks[i] == DateKeyOf(ts[i])
  {
    seq(|ts|, i requires 0 <= i < |ts| => DateKeyOf(ts[i]))
  }

  /** `reverse=True`: a later key first. */
  function Newest(): (Transcript, Transcript) -> bool
  {
    (a: Transcript, b: Transcript) => KeyLe(DateKeyOf(b), DateKeyOf(a))
  }

  lemma NewestTotal()
    ensures TotalPreorder(Newest())
  {
    KeyLeTotalPreorder();
  }

  /** `find_meetings_by_participants`: the meetings found, newest first; the
      sort raises when keys of different types meet. */
  function EnhancedMeetings(server: Server, ps: seq<string>): Result<seq<Transcript>, string>
  {
    var ms := SearchAll(PagesOf(server), ps).meetings;
    NewestTotal();
    if !SortKeysComparable(DateKeys(ms)) then Failure(Unorderable)
    else Success(SortBy(ms, Newest()))
  }

  // ----- what the search keeps -----

  predicate IdsPresent(ms: seq<Transcript>)
  {
    forall i :: 0 <= i < |ms| ==> !ms[i].id.Absent?
  }

  predicate IdsDistinct(ms: seq<Transcript>)
  {
    forall i, j :: 0 <= i < |ms| && 0 <= j < |ms| && i != j ==> IdKey(ms[i]) != IdKey(ms[j])
  }

  /** `t` has a speaker matching one of `ps`. */
  ghost predicate MatchesSome(t: Transcript, ps: seq<string>)
  {
    exists p :: p in ps && SpeaksIn(t, p)
  }

  /** Every meeting has a speaker matching one of `ps`. */
  ghost predicate AllMatch(ms: seq<Transcript>, ps: seq<string>)
  {
    forall i :: 0 <= i < |ms| ==> MatchesSome(ms[i], ps)
  }

  /** What the loops maintain: `seen_ids` holds exactly the ids of the
      meetings found, which are present and pairwise distinct, and every
      meeting matches one of `ps`. */
  ghost predicate Consistent(f: Found, ps: seq<string>)
  {
    f.seen == IdSet(f.meetings) && IdsPresent(f.meetings) && IdsDistinct(f.meetings) && AllMatch(f.meetings, ps)
  }

  lemma {:induction false} IdSetMembers(ms: seq<Transcript>, k: Option<string>)
    ensures k in IdSet(ms) <==> exists i :: 0 <= i < |ms| && IdKey(ms[i]) == k
  {
    if ms != [] {
      var init := ms[..|ms| - 1];
      IdSetMembers(init, k);
      if k in IdSet(init) {
        var i :| 0 <= i < |init| && IdKey(init[i]) == k;
        assert IdKey(ms[i]) == k;
      }
      if exists i :: 0 <= i < |ms| && IdKey(ms[i]) == k {
        var i :| 0 <= i < |ms| && IdKey(ms[i]) == k;
        if i < |init| { assert IdKey(init[i]) == k; }
      }
    }
  }

  lemma AddMeeting(f: Found, t: Transcript, p: string, ps: seq<string>)
    requires Consistent(f, ps) && p in ps && SpeaksIn(t, p)
    requires !t.id.Absent? && IdKey(t) !in f.seen
    ensures Consistent(Found(f.seen + {IdKey(t)}, f.meetings + [t]), ps)
  {
    var ms := f.meetings + [t];
    assert ms[..|ms| - 1] == f.meetings;
    forall i, j | 0 <= i < |ms| && 0 <= j < |ms| && i != j ensures IdKey(ms[i]) != IdKey(ms[j]) {
      if i == |ms| - 1 || j == |ms| - 1 {
        var other := if i == |ms| - 1 then j else i;
        IdSetMembers(f.meetings, IdKey(ms[other]));
        assert IdKey(f.meetings[other]) in f.seen;
      }
    }
    forall i | 0 <= i < |ms| ensures MatchesSome(ms[i], ps) {
      if i < |f.meetings| { assert ms[i] == f.meetings[i]; }
    }
  }

  lemma VisitOneKeeps(f: Found, t: Transcript, p: string, ps: seq<string>)
    requires Consistent(f, ps) && p in ps
    ensures Consistent(VisitOne(f, t, p).found, ps)
    ensures f.meetings <= VisitOne(f, t, p).found.meetings
  {
    if SpeaksIn(t, p) && !t.id.Absent? && IdKey(t) !in f.seen {
      AddMeeting(f, t, p, ps);
    }
  }

  lemma {:induction false} VisitBatchKeeps(f: Found, items: seq<Transcript>, p: string, ps: seq<string>)
    requires Consistent(f, ps) && p in ps
    ensures Consistent(VisitBatch(f, items, p).found, ps)
    ensures f.meetings <= VisitBatch(f, items, p).found.meetings
  {
    if items != [] {
      var init := items[..|items| - 1];
      VisitBatchKeeps(f, init, p, ps);
      var v := VisitBatch(f, init, p);
      if !v.raised {
        VisitOneKeeps(v.found, items[|items| - 1], p, ps);
      }
    }
  }

  lemma StepKeeps(pages: Pages, p: string, skip: nat, f: Found, ps: seq<string>)
    requires Consistent(f, ps) && p in ps
    ensures Consistent(ParticipantStep(pages, p, skip, f).found, ps)
    ensures f.meetings <= ParticipantStep(pages, p, skip, f).found.meetings
  {
    if pages(skip).Batch? {
      VisitBatchKeeps(f, pages(skip).items, p, ps);
    }
  }

  lemma {:induction false} ParticipantSearchKeeps(pages: Pages, p: string, skip: nat, f: Found, ps: seq<string>)
    requires skip < MaxMeetings && Consistent(f, ps) && p in ps
    ensures Consistent(ParticipantSearch(pages, p, skip, f).found, ps)
    ensures f.meetings <= ParticipantSearch(pages, p, skip, f).found.meetings
    decreases MaxMeetings - skip
  {
    StepKeeps(pages, p, skip, f, ps);
    var st := ParticipantStep(pages, p, skip, f);
    if st.More? && skip + Limit < MaxMeetings {
      ParticipantSearchKeeps(pages, p, skip + Limit, st.found, ps);
      SearchMore(pages, p, skip, f);
    } else {
      SearchLast(pages, p, skip, f);
    }
  }

  lemma SearchMore(pages: Pages, p: string, skip: nat, f: Found)
    requires skip + Limit < MaxMeetings && ParticipantStep(pages, p, skip, f).More?
    ensures var rest := ParticipantSearch(pages, p, skip + Limit, ParticipantStep(pages, p, skip, f).found);
            ParticipantSearch(pages, p, skip, f) == Searched(rest.found, [skip] + rest.queries)
  {
  }

  lemma SearchLast(pages: Pages, p: string, skip: nat, f: Found)
    requires skip < MaxMeetings
    requires !(ParticipantStep(pages, p, skip, f).More? && skip + Limit < MaxMeetings)
    ensures ParticipantSearch(pages, p, skip, f) == Searched(ParticipantStep(pages, p, skip, f).found, [skip])
  {
  }

  lemma AllMatchWiden(ms: seq<Transcript>, ps: seq<string>, qs: seq<string>)
    requires AllMatch(ms, ps) && forall p :: p in ps ==> p in qs
    ensures AllMatch(ms, qs)
  {
    forall i | 0 <= i < |ms| ensures MatchesSome(ms[i], qs) {
      assert MatchesSome(ms[i], ps);
      var p :| p in ps && SpeaksIn(ms[i], p);
      assert p in qs;
    }
  }

  /** The whole search keeps its invariant. */
  lemma {:induction false} SearchAllConsistent(pages: Pages, ps: seq<string>)
    ensures Consistent(SearchAll(pages, ps), ps)
  {
    if ps != [] {
      var init := ps[..|ps| - 1];
      var p := ps[|ps| - 1];
      SearchAllConsistent(pages, init);
      var f := SearchAll(pages, init);
      AllMatchWiden(f.meetings, init, ps);
      ParticipantSearchKeeps(pages, p, 0, f, ps);
    }
  }

  // ----- distinct ids survive the sort -----

  lemma {:induction false} DistinctCounts(ms: seq<Transcript>, x: Transcript)
    requires IdsDistinct(ms)
    ensures multiset(ms)[x] <= 1
  {
    if ms != [] {
      var init := ms[..|ms| - 1];
      assert ms == init + [ms[|ms| - 1]];
      assert IdsDistinct(init) by {
        forall i, j | 0 <= i < |init| && 0 <= j < |init| && i != j ensures IdKey(init[i]) != IdKey(init[j]) {
          assert init[i] == ms[i] && init[j] == ms[j];
        }
      }
      DistinctCounts(init, x);
      if ms[|ms| - 1] == x {
        forall i | 0 <= i < |init| ensures init[i] != x {
          assert IdKey(ms[i]) != IdKey(ms[|ms| - 1]);
        }
      }
    }
  }

  lemma RepeatedCounts(ms: seq<Transcript>, i: nat, j: nat)
    requires i < j < |ms|
    ensures ms[i] == ms[j] ==> multiset(ms)[ms[i]] >= 2
  {
    assert ms == ms[..j] + [ms[j]] + ms[j + 1..];
    assert ms[i] in ms[..j];
  }

  /** An element that occurs once is at one index only. */
  lemma NoRepeats(ms: seq<Transcript>, i: nat, j: nat)
    requires i < |ms| && j < |ms| && i != j && multiset(ms)[ms[i]] <= 1
    ensures ms[i] != ms[j]
  {
    if i < j { RepeatedCounts(ms, i, j); } else { RepeatedCounts(ms, j, i); }
  }

  lemma PermutedDistinct(a: seq<Transcript>, b: seq<Transcript>)
    requires multiset(a) == multiset(b) && IdsDistinct(a)
    ensures IdsDistinct(b)
  {
    forall i, j | 0 <= i < |b| && 0 <= j < |b| && i != j ensures IdKey(b[i]) != IdKey(b[j]) {
      DistinctCounts(a, b[i]);
      NoRepeats(b, i, j);
      assert b[i] in multiset(a) && b[j] in multiset(a);
      var k :| 0 <= k < |a| && a[k] == b[i];
      var l :| 0 <= l < |a| && a[l] == b[j];
    }
  }

  /** `find_meetings_by_participants` as a whole: a TypeError exactly when
      the keys of the meetings found mix types; otherwise those meetings,
      newest first, each with a present id not shared by another, and each
      with a speaker whose name contains one of the participants' names,
      ignoring case. */
  lemma EnhancedMeetingsProperties(server: Server, ps: seq<string>)
    ensures var found := SearchAll(PagesOf(server), ps).meetings;
            var r := EnhancedMeetings(server, ps);
            (r.Failure? <==> !SortKeysComparable(DateKeys(found)))
            && (r.Failure? ==> r.error == Unorderable)
            && (r.Success? ==>
                  SortedBy(r.value, Newest()) && multiset(r.value) == multiset(found)
                  && IdsPresent(r.value) && IdsDistinct(r.value) && AllMatch(r.value, ps))
  {
    var pages := PagesOf(server);
    SearchAllConsistent(pages, ps);
    var found := SearchAll(pages, ps).meetings;
    var r := EnhancedMeetings(server, ps);
    if r.Success? {
      var v := r.value;
      PermutedDistinct(found, v);
      forall i | 0 <= i < |v| ensures !v[i].id.Absent? && MatchesSome(v[i], ps) {
        assert v[i] in multiset(found);
        var k :| 0 <= k < |found| && found[k] == v[i];
      }
    }
  }

  // ----- every matching meeting the search reaches is found -----

  /** The batch loop, started in state `f`, handed `t` to its body: no
      earlier transcript of `items` raised. */
  ghost predicate ReachedAt(f: Found, items: seq<Transcript>, p: string, t: Transcript)
  {
    exists k :: 0 <= k < |items| && items[k] == t && !VisitBatch(f, items[..k], p).raised
  }

  /** The search for `p` from offset `skip` and state `f` handed `t` to the
      loop body, in the batch of this query or of a later one. */
  ghost predicate ReachedIn(pages: Pages, p: string, skip: nat, f: Found, t: Transcript)
    requires skip < MaxMeetings
    decreases MaxMeetings - skip
  {
    ReachedAt(f, PageItems(pages(skip)), p, t)
    || (var st := ParticipantStep(pages, p, skip, f);
        st.More? && skip + Limit < MaxMeetings && ReachedIn(pages, p, skip + Limit, st.found, t))
  }

  /** The body adds a matching transcript's id to `seen_ids` unless the id
      is missing, and never removes one. */
  lemma VisitOneSeen(f: Found, t: Transcript, p: string)
    ensures f.seen <= VisitOne(f, t, p).found.seen
    ensures SpeaksIn(t, p) && !t.id.Absent? ==> IdKey(t) in VisitOne(f, t, p).found.seen
  {
  }

  lemma {:induction false} VisitBatchGrows(f: Found, items: seq<Transcript>, p: string)
    ensures f.seen <= VisitBatch(f, items, p).found.seen
  {
    if items != [] {
      VisitBatchGrows(f, items[..|items| - 1], p);
      VisitOneSeen(VisitBatch(f, items[..|items| - 1], p).found, items[|items| - 1], p);
    }
  }

  /** A matching transcript with an id that the batch loop reaches ends up in
      `seen_ids`: added, or already there. */
  lemma {:induction false} VisitBatchComplete(f: Found, items: seq<Transcript>, p: string, k: nat)
    requires k < |items| && !VisitBatch(f, items[..k], p).raised
    requires SpeaksIn(items[k], p) && !items[k].id.Absent?
    ensures IdKey(items[k]) in VisitBatch(f, items, p).found.seen
  {
    var n := |items| - 1;
    var init := items[..n];
    var v := VisitBatch(f, init, p);
    if k == n {
      assert items[..k] == init;
      VisitOneSeen(v.found, items[n], p);
    } else {
      assert init[..k] == items[..k] && init[k] == items[k];
      VisitBatchComplete(f, init, p, k);
      VisitOneSeen(v.found, items[n], p);
    }
  }

  lemma StepGrows(pages: Pages, p: string, skip: nat, f: Found)
    ensures f.seen <= ParticipantStep(pages, p, skip, f).found.seen
  {
    if pages(skip).Batch? { VisitBatchGrows(f, pages(skip).items, p); }
  }

  lemma {:induction false} ParticipantSearchGrows(pages: Pages, p: string, skip: nat, f: Found)
    requires skip < MaxMeetings
    ensures f.seen <= ParticipantSearch(pages, p, skip, f).found.seen
    decreases MaxMeetings - skip
  {
    StepGrows(pages, p, skip, f);
    var st := ParticipantStep(pages, p, skip, f);
    if st.More? && skip + Limit < MaxMeetings {
      ParticipantSearchGrows(pages, p, skip + Limit, st.found);
      SearchMore(pages, p, skip, f);
    } else {
      SearchLast(pages, p, skip, f);
    }
  }

  /** A participant's search puts the id of every matching transcript it
      reaches into `seen_ids`. */
  lemma {:induction false} ParticipantSearchComplete(pages: Pages, p: string, skip: nat, f: Found, t: Transcript)
    requires skip < MaxMeetings && ReachedIn(pages, p, skip, f, t)
    requires SpeaksIn(t, p) && !t.id.Absent?
    ensures IdKey(t) in ParticipantSearch(pages, p, skip, f).found.seen
    decreases MaxMeetings - skip
  {
    var st := ParticipantStep(pages, p, skip, f);
    if ReachedAt(f, PageItems(pages(skip)), p, t) {
      var items := PageItems(pages(skip));
      var k :| 0 <= k < |items| && items[k] == t && !VisitBatch(f, items[..k], p).raised;
      VisitBatchComplete(f, items, p, k);
      if st.More? && skip + Limit < MaxMeetings {
        ParticipantSearchGrows(pages, p, skip + Limit, st.found);
        SearchMore(pages, p, skip, f);
      } else {
        SearchLast(pages, p, skip, f);
      }
    } else {
      ParticipantSearchComplete(pages, p, skip + Limit, st.found, t);
      SearchMore(pages, p, skip, f);
    }
  }

  lemma {:induction false} SearchAllGrows(pages: Pages, ps: seq<string>, j: nat)
    requires j <= |ps|
    ensures SearchAll(pages, ps[..j]).seen <= SearchAll(pages, ps).seen
  {
    if j < |ps| {
      var init := ps[..|ps| - 1];
      assert init[..j] == ps[..j];
      SearchAllGrows(pages, init, j);
      ParticipantSearchGrows(pages, ps[|ps| - 1], 0, SearchAll(pages, init));
    } else {
      assert ps[..j] == ps;
    }
  }

  /** The search is complete: when the search for participant `ps[j]`
      reaches a transcript with an id and a speaker matching `ps[j]`, a
      meeting with that id is among those found. */
  lemma SearchAllComplete(pages: Pages, ps: seq<string>, j: nat, t: Transcript)
    requires j < |ps| && ReachedIn(pages, ps[j], 0, SearchAll(pages, ps[..j]), t)
    requires SpeaksIn(t, ps[j]) && !t.id.Absent?
    ensures var found := SearchAll(pages, ps).meetings;
            exists i :: 0 <= i < |found| && IdKey(found[i]) == IdKey(t)
  {
    var qs := ps[..j + 1];
    assert qs[..j] == ps[..j] && qs[|qs| - 1] == ps[j];
    ParticipantSearchComplete(pages, ps[j], 0, SearchAll(pages, ps[..j]), t);
    SearchAllGrows(pages, ps, j + 1);
    SearchAllConsistent(pages, ps);
    IdSetMembers(SearchAll(pages, ps).meetings, IdKey(t));
  }

  /** `find_meetings_by_participants` returns, when its sort does not raise,
      a meeting for every matching transcript with an id that some
      participant's search reached. */
  lemma EnhancedMeetingsComplete(server: Server, ps: seq<string>, j: nat, t: Transcript)
    requires j < |ps| && ReachedIn(PagesOf(server), ps[j], 0, SearchAll(PagesOf(server), ps[..j]), t)
    requires SpeaksIn(t, ps[j]) && !t.id.Absent?
    ensures var r := EnhancedMeetings(server, ps);
            r.Success? ==> exists i :: 0 <= i < |r.value| && IdKey(r.value[i]) == IdKey(t)
  {
    var found := SearchAll(PagesOf(server), ps).meetings;
    SearchAllComplete(PagesOf(server), ps, j, t);
    var i :| 0 <= i < |found| && IdKey(found[i]) == IdKey(t);
    var r := EnhancedMeetings(server, ps);
    if r.Success? {
      assert found[i] in multiset(found);
      assert found[i] in multiset(r.value);
      var l :| 0 <= l < |r.value| && r.value[l] == found[i];
    }
  }

  // ----- the queries of one participant's search -----

  predicate OffsetsFrom(pages: Pages, p: string, skip: nat, f: Found)
    requires skip < MaxMeetings
  {
    var qs := ParticipantSearch(pages, p, skip, f).queries;
    SteppedFrom(qs, skip, Limit) && skip + Limit * (|qs| - 1) < MaxMeetings
  }

  lemma {:induction false} SearchOffsets(pages: Pages, p: string, skip: nat, f: Found)
    requires skip < MaxMeetings
    ensures OffsetsFrom(pages, p, skip, f)
    decreases MaxMeetings - skip
  {
    var st := ParticipantStep(pages, p, skip, f);
    if st.More? && skip + Limit < MaxMeetings {
      SearchOffsets(pages, p, skip + Limit, st.found);
      SearchMore(pages, p, skip, f);
      var rest := ParticipantSearch(pages, p, skip + Limit, st.found);
      SteppedCons(rest.queries, skip, Limit);
    } else {
      SearchLast(pages, p, skip, f);
    }
  }

  /** Per participant, at most 30 queries, at the offsets 0, 10, ..., 290. */
  lemma ParticipantQueriesBound(pages: Pages, p: string, f: Found)
    ensures var qs := ParticipantSearch(pages, p, 0, f).queries;
            1 <= |qs| <= MaxMeetings / Limit && Stepped(qs, Limit)
            && forall k :: 0 <= k < |qs| ==> qs[k] < MaxMeetings
  {
    SearchOffsets(pages, p, 0, f);
    assert OffsetsFrom(pages, p, 0, f);
  }

  /** The query at `q` returned a full batch whose scan, from the state `g`,
      raised nothing. */
  predicate FullBatchFrom(pages: Pages, p: string, q: nat, g: Found)
  {
    pages(q).Batch? && |pages(q).items| >= Limit && !VisitBatch(g, pages(q).items, p).raised
  }

  /** Some state of the scan took the query at `q` as a full, clean batch. */
  ghost predicate WentOn(pages: Pages, p: string, q: nat)
  {
    exists g :: FullBatchFrom(pages, p, q, g)
  }

  lemma MoreStep(pages: Pages, p: string, skip: nat, f: Found)
    requires ParticipantStep(pages, p, skip, f).More?
    ensures skip + Limit < MaxMeetings && FullBatchFrom(pages, p, skip, f)
  {
  }

  lemma {:induction false} WentOnAt(pages: Pages, p: string, skip: nat, f: Found, k: nat)
    requires skip < MaxMeetings
    requires k < |ParticipantSearch(pages, p, skip, f).queries| - 1
    ensures WentOn(pages, p, ParticipantSearch(pages, p, skip, f).queries[k])
    decreases MaxMeetings - skip
  {
    var qs := ParticipantSearch(pages, p, skip, f).queries;
    var st := ParticipantStep(pages, p, skip, f);
    if st.Done? {
      SearchLast(pages, p, skip, f);
      assert false;
    } else {
      MoreStep(pages, p, skip, f);
      SearchMore(pages, p, skip, f);
      var rest := ParticipantSearch(pages, p, skip + Limit, st.found).queries;
      if k == 0 {
        assert FullBatchFrom(pages, p, qs[0], f);
      } else {
        WentOnAt(pages, p, skip + Limit, st.found, k - 1);
        assert qs[k] == rest[k - 1];
      }
    }
  }

  /** Every query of a participant's search but the last returned a full
      batch scanned without error: the search stops at the first failing
      query, missing, empty or short batch, or error inside a batch. */
  lemma ParticipantContinues(pages: Pages, p: string, f: Found)
    ensures var qs := ParticipantSearch(pages, p, 0, f).queries;
            forall k :: 0 <= k < |qs| - 1 ==> WentOn(pages, p, qs[k])
  {
    var qs := ParticipantSearch(pages, p, 0, f).queries;
    forall k | 0 <= k < |qs| - 1 ensures WentOn(pages, p, qs[k]) {
      WentOnAt(pages, p, 0, f, k);
    }
  }

  // ----- find_meetings_by_participants, the loops -----

  /** The speakers loop and the `for speaker in speakers` check. */
  method SpeakerMatches(t: Transcript, participant: string) returns (b: bool)
    ensures b == SpeaksIn(t, participant)
  {
    var speakers: set<string> := {};
    var sentences := Items(t.sentences);
    for i := 0 to |sentences|
      invariant forall x :: x in speakers <==>
                  exists j :: 0 <= j < i && NamedSpeaker(sentences[j]) && sentences[j].value.speakerName.value == x
    {
      var sentence := sentences[i];
      if sentence.Some? && Truthy(sentence.value.speakerName) {
        speakers := speakers + {sentence.value.speakerName.value};
      }
    }
    b := false;
    var rest := speakers;
    while rest != {}
      invariant rest <= speakers
      invariant forall x :: x in speakers - rest ==> !ContainsIgnoringCase(x, participant)
      decreases |rest|
    {
      var speaker :| speaker in rest;
      if Contains(Lower(speaker), Lower(participant)) {
        b := true;
        var j :| 0 <= j < |sentences| && NamedSpeaker(sentences[j]) && sentences[j].value.speakerName.value == speaker;
        return;
      }
      rest := rest - {speaker};
    }
    assert forall j :: 0 <= j < |sentences| && NamedSpeaker(sentences[j]) ==> sentences[j].value.speakerName.value in speakers;
  }

  /** Once the scan of a batch raised, the rest of the batch is not scanned. */
  lemma {:induction false} RaisedStays(f: Found, items: seq<Transcript>, p: string, i: nat)
    requires i <= |items| && VisitBatch(f, items[..i], p).raised
    ensures VisitBatch(f, items, p) == VisitBatch(f, items[..i], p)
    decreases |items| - i
  {
    if i < |items| {
      var n := |items|;
      assert items[..n] == items;
      RaisedStaysUpTo(f, items, p, i, n);
    } else {
      assert items[..i] == items;
    }
  }

  lemma {:induction false} RaisedStaysUpTo(f: Found, items: seq<Transcript>, p: string, i: nat, n: nat)
    requires i <= n <= |items| && VisitBatch(f, items[..i], p).raised
    ensures VisitBatch(f, items[..n], p) == VisitBatch(f, items[..i], p)
    decreases n - i
  {
    if i < n {
      RaisedStaysUpTo(f, items, p, i, n - 1);
      assert items[..n][..n - 1] == items[..n - 1];
    }
  }

  method ScanBatchFor(batch: seq<Transcript>, participant: string, seen0: set<Option<string>>, all0: seq<Transcript>)
    returns (seen: set<Option<string>>, all: seq<Transcript>, raised: bool)
    ensures Visit(Found(seen, all), raised) == VisitBatch(Found(seen0, all0), batch, participant)
  {
    ghost var f0 := Found(seen0, all0);
    seen, all, raised := seen0, all0, false;
    for i := 0 to |batch|
      invariant Visit(Found(seen, all), false) == VisitBatch(f0, batch[..i], participant)
    {
      var t := batch[i];
      assert batch[..i + 1][..i] == batch[..i];
      var matched := SpeakerMatches(t, participant);
      if matched {
        if t.id.Absent? {
          raised := true;
          RaisedStays(f0, batch, participant, i + 1);
          return;
        }
        if IdKey(t) !in seen {
          seen := seen + {IdKey(t)};
          all := all + [t];
          if t.title.Absent? {
            raised := true;
            RaisedStays(f0, batch, participant, i + 1);
            return;
          }
        }
      }
    }
    assert batch[..|batch|] == batch;
  }

  lemma StepDone(pages: Pages, p: string, skip: nat, f: Found)
    requires skip < MaxMeetings && ParticipantStep(pages, p, skip, f).Done?
    ensures ParticipantSearch(pages, p, skip, f).found == ParticipantStep(pages, p, skip, f).found
  {
  }

  /** The `while skip < max_meetings` loop for one participant. */
  method SearchParticipant(server: Server, participant: string, seen0: set<Option<string>>, all0: seq<Transcript>)
    returns (seen: set<Option<string>>, all: seq<Transcript>)
    ensures Found(seen, all) == ParticipantSearch(PagesOf(server), participant, 0, Found(seen0, all0)).found
  {
    ghost var pages := PagesOf(server);
    ghost var target := ParticipantSearch(pages, participant, 0, Found(seen0, all0)).found;
    seen, all := seen0, all0;
    var skip: nat := 0;
    while skip < MaxMeetings
      invariant skip <= MaxMeetings + Limit
      invariant skip < MaxMeetings ==> ParticipantSearch(pages, participant, skip, Found(seen, all)).found == target
      invariant skip >= MaxMeetings ==> Found(seen, all) == target
      decreases MaxMeetings + Limit - skip
    {
      ghost var s0, f0 := skip, Found(seen, all);
      var page := PageOf(ExecuteQuery(server(skip)));
      assert page == pages(s0);
      ghost var st := ParticipantStep(pages, participant, s0, f0);
      if !page.Batch? {
        StepDone(pages, participant, s0, f0);
        break;
      }
      var batch := page.items;
      var raised;
      seen, all, raised := ScanBatchFor(batch, participant, seen, all);
      assert st.found == Found(seen, all);
      if raised {
        StepDone(pages, participant, s0, f0);
        break;
      }
      skip := skip + Limit;
      if st.Done? {
        StepDone(pages, participant, s0, f0);
      } else {
        SearchMore(pages, participant, s0, f0);
      }
      if |batch| < Limit {
        break;
      }
    }
  }

  method FindMeetingsByParticipants(server: Server, participants: seq<string>) returns (r: Result<seq<Transcript>, string>)
    ensures r == EnhancedMeetings(server, participants)
  {
    ghost var pages := PagesOf(server);
    var seen: set<Option<string>> := {};
    var all: seq<Transcript> := [];
    for i := 0 to |participants|
      invariant Found(seen, all) == SearchAll(pages, participants[..i])
    {
      assert participants[..i + 1][..i] == participants[..i];
      seen, all := SearchParticipant(server, participants[i], seen, all);
    }
    assert participants[..|participants|] == participants;
    var keys := DateKeys(all);
    if !SortKeysComparable(keys) {
      return Failure(Unorderable);
    }
    NewestTotal();
    r := Success(SortBy(all, Newest()));
  }

  // ----- prepare_for_gemini -----

  const MaxSentences := 100
  const MaxPoints := 10
  const Keywords: seq<string> := ["challenge", "solution", "implement", "result", "success", "problem"]

  /** The line closing each meeting: `"\n" + "=" * 50 + "\n"`. */
  const Rule := "\n" + Repeat('=', 50) + "\n"

  /** `str(e)` of the `KeyError` raised by `meeting['title']`. */
  const MissingTitle := "'title'"

  /** `any(keyword in text.lower() for keyword in [...])`. */
  predicate HasKeyword(text: string)
  {
    exists i :: 0 <= i < |Keywords| && Contains(Lower(text), Keywords[i])
  }

  /** A sentence kept as a discussion point. */
  predicate IsPoint(s: Option<Sentence>)
  {
    Spoken(s) && HasKeyword(s.value.text.value)
  }

  /** `discussion_points`: the texts of the point sentences, in order. */
  function Points(ss: seq<Option<Sentence>>): seq<string>
  {
    if ss == [] then []
    else
      var last := ss[|ss| - 1];
      Points(ss[..|ss| - 1]) + (if IsPoint(last) then [last.value.text.value] else [])
  }

  function Bullets(ps: seq<string>): (r: seq<string>)
    ensures |r| == |ps| && forall i :: 0 <= i < |ps| ==> r[i] == "- " + ps[i]
  {
    seq(|ps|, i requires 0 <= i < |ps| => "- " + ps[i])
  }

  /** The key point lines of one meeting's first sentences. */
  function PointLines(ss: seq<Option<Sentence>>): seq<string>
  {
    var pts := Points(ss);
    if pts != [] then ["Key Discussion Points:"] + Bullets(Take(pts, MaxPoints)) else []
  }

  function SummaryLine(t: Transcript): seq<string>
  {
    if HasOverview(t) then ["Summary: " + t.summary.value.overview.value] else []
  }

  /** `meeting.get("sentences", [])[:100]` for a meeting whose sentences are
      not null. */
  function FirstSentences(t: Transcript): seq<Option<Sentence>>
  {
    Take(Items(t.sentences), MaxSentences)
  }

  /** What one meeting appends to `content`, or the error it raises: a
      missing `title` key, then a null `sentences` list that cannot be
      sliced. A null title is shown as "None". */
  function MeetingLines(t: Transcript): Result<seq<string>, string>
  {
    if t.title.Absent? then Failure(MissingTitle)
    else if t.sentences.Null? then Failure(NotSubscriptable)
    else
      Success(["Meeting: " + Shown(t.title, ""), "Date: " + Shown(t.dateString, "Unknown")]
              + SummaryLine(t) + PointLines(FirstSentences(t)) + [Rule])
  }

  /** `content` after `for meeting in meetings`, or the first error raised. */
  function ContentLines(ms: seq<Transcript>): Result<seq<string>, string>
  {
    if ms == [] then Success([])
    else
      match ContentLines(ms[..|ms| - 1])
      case Failure(e) => Failure(e)
      case Success(ls) =>
        match MeetingLines(ms[|ms| - 1])
        case Failure(e) => Failure(e)
        case Success(m) => Success(ls + m)
  }

  /** `"\n".join(content)`. */
  function EnhancedContent(ms: seq<Transcript>): Result<string, string>
  {
    match ContentLines(ms)
    case Failure(e) => Failure(e)
    case Success(ls) => Success(Join(ls, "\n"))
  }

  // ----- what the prompt holds -----

  /** `text` is the text of a point sentence of `ss`. */
  ghost predicate PointOf(ss: seq<Option<Sentence>>, text: string)
  {
    exists i :: 0 <= i < |ss| && IsPoint(ss[i]) && ss[i].value.text.value == text
  }

  lemma {:induction false} PointsSound(ss: seq<Option<Sentence>>, k: nat)
    requires k < |Points(ss)|
    ensures PointOf(ss, Points(ss)[k])
  {
    var init := ss[..|ss| - 1];
    if k < |Points(init)| {
      PointsSound(init, k);
      var i :| 0 <= i < |init| && IsPoint(init[i]) && init[i].value.text.value == Points(init)[k];
      assert ss[i] == init[i];
    } else {
      assert IsPoint(ss[|ss| - 1]);
    }
  }

  lemma {:induction false} PointsComplete(ss: seq<Option<Sentence>>, i: nat)
    requires i < |ss| && IsPoint(ss[i])
    ensures ss[i].value.text.value in Points(ss)
  {
    var init := ss[..|ss| - 1];
    if i < |init| {
      PointsComplete(init, i);
      assert init[i] == ss[i];
    }
  }

  /** The key points of a meeting: at most ten; each the text of a spoken
      sentence among its first hundred that contains one of the keywords,
      ignoring case; and such a sentence is left out only when ten points
      were already listed. */
  lemma KeyPointsProperties(ss: seq<Option<Sentence>>)
    ensures var ks := Take(Points(ss), MaxPoints);
            |ks| <= MaxPoints
            && (forall k :: 0 <= k < |ks| ==> PointOf(ss, ks[k]))
            && (forall i :: 0 <= i < |ss| && IsPoint(ss[i]) && ss[i].value.text.value !in ks ==> |ks| == MaxPoints)
  {
    var pts := Points(ss);
    var ks := Take(pts, MaxPoints);
    forall k | 0 <= k < |ks| ensures PointOf(ss, ks[k]) {
      PointsSound(ss, k);
    }
    forall i | 0 <= i < |ss| && IsPoint(ss[i]) && ss[i].value.text.value !in ks
      ensures |ks| == MaxPoints
    {
      PointsComplete(ss, i);
    }
  }

  /** One meeting's lines: the error cases, then the title and date lines,
      the summary line exactly when there is an overview, the key points
      header exactly when some point was found, followed by the bullets, and
      the closing rule. */
  lemma MeetingLinesProperties(t: Transcript)
    ensures var r := MeetingLines(t);
            (r.Failure? <==> t.title.Absent? || t.sentences.Null?)
            && (r.Failure? ==> r.error == if t.title.Absent? then MissingTitle else NotSubscriptable)
            && (r.Success? ==>
                  var ls := r.value;
                  var o := if HasOverview(t) then 1 else 0;
                  var pts := Points(FirstSentences(t));
                  |ls| >= 3 + o
                  && ls[0] == "Meeting: " + Shown(t.title, "")
                  && ls[1] == "Date: " + Shown(t.dateString, "Unknown")
                  && (o == 1 ==> ls[2] == "Summary: " + t.summary.value.overview.value)
                  && ls[|ls| - 1] == Rule
                  && (pts == [] ==> |ls| == 3 + o)
                  && (pts != [] ==> ls[2 + o] == "Key Discussion Points:"
                                    && ls[3 + o..|ls| - 1] == Bullets(Take(pts, MaxPoints))))
  {
    var r := MeetingLines(t);
    if r.Success? {
      var head := ["Meeting: " + Shown(t.title, ""), "Date: " + Shown(t.dateString, "Unknown")];
      var sl := SummaryLine(t);
      var pl := PointLines(FirstSentences(t));
      var o := if HasOverview(t) then 1 else 0;
      assert r.value == head + sl + pl + [Rule];
      assert |sl| == o;
      if o == 1 { assert r.value[2] == sl[0]; }
      assert r.value[2 + o..|r.value| - 1] == pl;
    }
  }

  /** `FirstSentences` is the first hundred sentences. */
  lemma FirstSentencesBound(t: Transcript)
    ensures var ss := FirstSentences(t);
            |ss| <= MaxSentences && ss <= Items(t.sentences)
            && (|Items(t.sentences)| >= MaxSentences ==> |ss| == MaxSentences)
  {
  }

  /** The first meeting that raises decides the error. */
  ghost predicate FirstFailure(ms: seq<Transcript>, i: int, e: string)
  {
    0 <= i < |ms| && MeetingLines(ms[i]) == Failure(e)
    && forall j :: 0 <= j < i ==> MeetingLines(ms[j]).Success?
  }

  /** `prepare_for_gemini` raises exactly when some meeting does, and then
      with the error of the first one. */
  lemma {:induction false} ContentFails(ms: seq<Transcript>)
    ensures var r := ContentLines(ms);
            (r.Failure? <==> exists i :: 0 <= i < |ms| && MeetingLines(ms[i]).Failure?)
            && (r.Failure? ==> exists i :: FirstFailure(ms, i, r.error))
  {
    if ms != [] {
      var init := ms[..|ms| - 1];
      var n := |ms| - 1;
      ContentFails(init);
      var ri := ContentLines(init);
      if ri.Failure? {
        var i :| FirstFailure(init, i, ri.error);
        FirstFailureExtends(ms, i, ri.error);
      } else {
        PrefixSucceeds(ms);
        if MeetingLines(ms[n]).Failure? {
          assert FirstFailure(ms, n, MeetingLines(ms[n]).error);
        }
      }
    }
  }

  lemma FirstFailureExtends(ms: seq<Transcript>, i: int, e: string)
    requires ms != [] && FirstFailure(ms[..|ms| - 1], i, e)
    ensures FirstFailure(ms, i, e)
  {
    var init := ms[..|ms| - 1];
    assert ms[i] == init[i];
    forall j | 0 <= j < i ensures MeetingLines(ms[j]).Success? {
      assert ms[j] == init[j];
    }
  }

  lemma PrefixSucceeds(ms: seq<Transcript>)
    requires ms != []
    requires var init := ms[..|ms| - 1];
             forall j :: 0 <= j < |init| ==> MeetingLines(init[j]).Success?
    ensures forall j :: 0 <= j < |ms| - 1 ==> MeetingLines(ms[j]).Success?
  {
    var init := ms[..|ms| - 1];
    forall j | 0 <= j < |ms| - 1 ensures MeetingLines(ms[j]).Success? {
      assert ms[j] == init[j];
    }
  }

  /** A meeting found through a speaker has a list of sentences, so in
      `prepare_for_gemini` it can only raise for a missing title. */
  lemma MatchedLines(t: Transcript, ps: seq<string>)
    requires MatchesSome(t, ps)
    ensures MeetingLines(t).Failure? <==> t.title.Absent?
  {
    var p :| p in ps && SpeaksIn(t, p);
  }

  // ----- prepare_for_gemini, the loops -----

  /** The `any(...)` over the keywords. */
  method KeywordIn(text: string) returns (b: bool)
    ensures b == HasKeyword(text)
  {
    var lowered := Lower(text);
    for i := 0 to |Keywords|
      invariant forall j :: 0 <= j < i ==> !Contains(lowered, Keywords[j])
    {
      if Contains(lowered, Keywords[i]) {
        return true;
      }
    }
    return false;
  }

  /** The `discussion_points` loop. */
  method DiscussionPoints(ss: seq<Option<Sentence>>) returns (points: seq<string>)
    ensures points == Points(ss)
  {
    points := [];
    for i := 0 to |ss|
      invariant points == Points(ss[..i])
    {
      assert ss[..i + 1][..i] == ss[..i];
      var sentence := ss[i];
      if sentence.Some? && Truthy(sentence.value.text) {
        var text := sentence.value.text.value;
        var key := KeywordIn(text);
        if key {
          points := points + [text];
        }
      }
    }
    assert ss[..|ss|] == ss;
  }

  /** The body of `for meeting in meetings`. */
  method MeetingLinesOf(t: Transcript) returns (r: Result<seq<string>, string>)
    ensures r == MeetingLines(t)
  {
    if t.title.Absent? {
      return Failure(MissingTitle);
    }
    var content := ["Meeting: " + Shown(t.title, ""), "Date: " + Shown(t.dateString, "Unknown")];
    if HasOverview(t) {
      content := content + ["Summary: " + t.summary.value.overview.value];
    }
    if t.sentences.Null? {
      return Failure(NotSubscriptable);
    }
    assert content == ["Meeting: " + Shown(t.title, ""), "Date: " + Shown(t.dateString, "Unknown")] + SummaryLine(t);
    var sentences := Take(Items(t.sentences), MaxSentences);
    assert sentences == FirstSentences(t);
    var points := PointLinesOf(sentences);
    content := content + points + [Rule];
    r := Success(content);
  }

  /** `if sentences:` and the key points, at most ten of them. */
  method PointLinesOf(sentences: seq<Option<Sentence>>) returns (content: seq<string>)
    ensures content == PointLines(sentences)
  {
    content := [];
    if sentences != [] {
      var points := DiscussionPoints(sentences);
      if points != [] {
        content := ["Key Discussion Points:"];
        var kept := Take(points, MaxPoints);
        for j := 0 to |kept|
          invariant content == ["Key Discussion Points:"] + Bullets(kept[..j])
        {
          assert Bullets(kept[..j + 1]) == Bullets(kept[..j]) + ["- " + kept[j]];
          content := content + ["- " + kept[j]];
        }
        assert kept[..|kept|] == kept;
      }
    }
  }

  /** Once a meeting raised, `prepare_for_gemini` has raised. */
  lemma {:induction false} ContentStays(ms: seq<Transcript>, i: nat, n: nat)
    requires i <= n <= |ms| && ContentLines(ms[..i]).Failure?
    ensures ContentLines(ms[..n]) == ContentLines(ms[..i])
    decreases n - i
  {
    if i < n {
      ContentStays(ms, i, n - 1);
      assert ms[..n][..n - 1] == ms[..n - 1];
    }
  }

  method PrepareForGemini(meetings: seq<Transcript>) returns (r: Result<string, string>)
    ensures r == EnhancedContent(meetings)
  {
    var content: seq<string> := [];
    for i := 0 to |meetings|
      invariant ContentLines(meetings[..i]) == Success(content)
    {
      assert meetings[..i + 1][..i] == meetings[..i];
      var lines := MeetingLinesOf(meetings[i]);
      if lines.Failure? {
        ContentStays(meetings, i + 1, |meetings|);
        assert meetings[..|meetings|] == meetings;
        return Failure(lines.error);
      }
      content := content + lines.value;
    }
    assert meetings[..|meetings|] == meetings;
    r := Success(Join(content, "\n"));
  }

  /** `prepare_for_gemini` on meetings found through speakers can only
      raise for a missing title. */
  lemma FoundContent(ms: seq<Transcript>, found: seq<Transcript>, ps: seq<string>)
    requires AllMatch(ms, ps) && multiset(ms) == multiset(found)
    ensures EnhancedContent(ms).Failure? ==>
              EnhancedContent(ms).error == MissingTitle && exists i :: 0 <= i < |found| && found[i].title.Absent?
  {
    ContentFails(ms);
    if ContentLines(ms).Failure? {
      var e := ContentLines(ms).error;
      var i :| FirstFailure(ms, i, e);
      MatchedLines(ms[i], ps);
      MeetingLinesProperties(ms[i]);
      assert ms[i] in multiset(found);
      var j :| 0 <= j < |found| && found[j] == ms[i];
    }
  }

  // ----- generate_case_study -----

  /** The outcome of `generate_case_study` up to the model request: no case
      study, the meeting content put into the prompt, or the error raised. */
  datatype CaseStudy = NoCaseStudy | Ready(content: string) | Failed(error: string)

  /** No known participants or no meetings found: `None`, the first without
      searching. Otherwise an error of the sort or of `prepare_for_gemini`
      propagates. */
  function CaseStudyContent(mapping: map<string, seq<string>>, domain: string, server: Server): CaseStudy
  {
    var ps := ParticipantsFor(mapping, domain);
    if ps == [] then NoCaseStudy
    else
      match EnhancedMeetings(server, ps)
      case Failure(e) => Failed(e)
      case Success(ms) =>
        if ms == [] then NoCaseStudy
        else
          match EnhancedContent(ms)
          case Failure(e) => Failed(e)
          case Success(c) => Ready(c)
  }

  /** Without known participants the outcome is `None` whatever the API
      answers; it is `None` exactly when no participant or no meeting was
      found; an error is the unorderable sort or a found meeting without a
      title, never the null sentences list. */
  lemma CaseStudyProperties(mapping: map<string, seq<string>>, domain: string, server: Server)
    ensures var ps := ParticipantsFor(mapping, domain);
            var found := SearchAll(PagesOf(server), ps).meetings;
            var r := CaseStudyContent(mapping, domain, server);
            (ps == [] ==> r == NoCaseStudy)
            && (r == NoCaseStudy <==> ps == [] || found == [])
            && (r.Failed? ==> r.error == Unorderable || r.error == MissingTitle)
            && (r.Failed? && r.error == MissingTitle ==>
                  exists i :: 0 <= i < |found| && found[i].title.Absent?)
  {
    var ps := ParticipantsFor(mapping, domain);
    if ps != [] {
      var found := SearchAll(PagesOf(server), ps).meetings;
      var m := EnhancedMeetings(server, ps);
      EnhancedMeetingsProperties(server, ps);
      if m.Success? {
        var ms := m.value;
        if ms == [] {
          assert |multiset(found)| == 0;
        } else {
          assert |multiset(ms)| > 0;
          FoundContent(ms, found, ps);
        }
      } else {
        assert found != [];
      }
    }
  }
}
