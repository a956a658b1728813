/** `test_domain_search` (test_domain_search_fixed.py): pages through the
    transcripts ten at a time until `limit` of them have been checked and
    keeps every transcript one of whose addresses ends, ignoring case, with
    "@" + domain. Its address list is not the generators': host and
    organizer come first and are kept without an '@' test, and nothing is
    lower-cased beforehand, dropped when empty or de-duplicated. */
module DomainSearch {
  import opened Wrappers
  import opened Text
  import opened Records
  import opened FirefliesApi
  import opened Paging
  import opened Emails

  /** The query's fixed `limit`, which is also the step of `skip`. */
  const PageSize := 10

  // ----- the domain test -----

  /** `if transcript.get(k): all_emails.append(transcript[k])`. */
  function TruthyAddress(f: Field<string>): seq<string>
  {
    if Truthy(f) then [f.value] else []
  }

  /** `all_emails`, in the order the loop body appends to it. */
  function AllEmails(t: Transcript): seq<string>
  {
    TruthyAddress(t.hostEmail) + TruthyAddress(t.organizerEmail)
    + FromParticipants(Items(t.participants))
    + FromUsers(Items(t.firefliesUsers))
    + FromAttendees(Items(t.meetingAttendees))
  }

  /** `email.lower().endswith(f"@{domain.lower()}")`. */
  predicate MatchesDomain(email: string, domain: string)
  {
    InDomain(Lower(email), Lower(domain))
  }

  /** `any(...)` of `MatchesDomain` over `emails`. */
  predicate AnyMatch(emails: seq<string>, domain: string)
  {
    emails != [] && (MatchesDomain(emails[0], domain) || AnyMatch(emails[1..], domain))
  }

  /** `domain_found`. */
  predicate DomainFound(t: Transcript, domain: string)
  {
    AnyMatch(AllEmails(t), domain)
  }

  /** The `domain_found` test for a fixed domain, the test the batch scan
      and the paging loop are stated over. */
  function DomainTest(domain: string): Transcript -> bool
  {
    t => DomainFound(t, domain)
  }

  lemma {:induction false} AnyMatchIff(emails: seq<string>, domain: string)
    ensures AnyMatch(emails, domain) <==> exists e :: e in emails && MatchesDomain(e, domain)
  {
    if emails != [] {
      AnyMatchIff(emails[1..], domain);
      assert emails == [emails[0]] + emails[1..];
    }
  }

  /** An address that matches holds an '@', so it is not empty. */
  lemma MatchHasAt(e: string, domain: string)
    requires MatchesDomain(e, domain)
    ensures '@' in e && e != ""
  {
    var p := "@" + Lower(domain);
    var k := |e| - |p|;
    assert Lower(e)[k..] == p;
    assert Lower(e)[k] == Lower(e)[k..][0] == '@';
    LowerKeepsAt(e, k);
    assert e[k] == '@';
  }

  /** The test agrees with the generators' `is_domain_participant` on the
      lower-cased domain: a matching address contains '@', so neither the
      '@' test the generators put on host and organizer nor their
      lower-casing, dropping of empty strings and de-duplication changes the
      outcome. */
  lemma AgreesWithGenerators(t: Transcript, domain: string)
    ensures DomainFound(t, domain) <==> HasDomainParticipant(t, Lower(domain))
  {
    AnyMatchIff(AllEmails(t), domain);
    DomainParticipantFromCandidates(t, Lower(domain));
    var rest := FromParticipants(Items(t.participants)) + FromAttendees(Items(t.meetingAttendees))
                + FromUsers(Items(t.firefliesUsers));
    if DomainFound(t, domain) {
      var e :| e in AllEmails(t) && MatchesDomain(e, domain);
      MatchHasAt(e, domain);
      assert e in Candidates(t);
    }
    if HasDomainParticipant(t, Lower(domain)) {
      var c :| c in Candidates(t) && c != "" && InDomain(Lower(c), Lower(domain));
      assert c in AllEmails(t);
    }
  }

  // ----- one batch -----

  /** `print(transcript['title'])` and `print(transcript['dateString'])`
      raise a `KeyError`. */
  predicate Unprintable(t: Transcript)
  {
    t.title.Absent? || t.dateString.Absent?
  }

  /** The meetings of a batch that `domain_found`, and whether printing one
      raised; the append comes before the prints, so the meeting that raised
      is kept. */
  datatype Scanned = Scanned(found: seq<Transcript>, raised: bool)

  /** `for transcript in batch`, up to the first `KeyError`. */
  function ScanBatch(items: seq<Transcript>, hit: Transcript -> bool): Scanned
  {
    if items == [] then Scanned([], false)
    else
      var v := ScanBatch(items[..|items| - 1], hit);
      var t := items[|items| - 1];
      if v.raised || !hit(t) then v
      else Scanned(v.found + [t], Unprintable(t))
  }

  /** The transcripts of `items` that pass `hit`, in order. */
  function Matching(items: seq<Transcript>, hit: Transcript -> bool): seq<Transcript>
  {
    if items == [] then []
    else
      var t := items[|items| - 1];
      Matching(items[..|items| - 1], hit) + (if hit(t) then [t] else [])
  }

  lemma {:induction false} MatchingMembers(items: seq<Transcript>, hit: Transcript -> bool)
    ensures forall t :: t in Matching(items, hit) <==> t in items && hit(t)
  {
    if items != [] {
      var init := items[..|items| - 1];
      MatchingMembers(init, hit);
      assert items == init + [items[|items| - 1]];
    }
  }

  lemma {:induction false} MatchingConcat(a: seq<Transcript>, b: seq<Transcript>, hit: Transcript -> bool)
    ensures Matching(a + b, hit) == Matching(a, hit) + Matching(b, hit)
  {
    if b == [] {
      assert a + b == a;
    } else {
      var init := b[..|b| - 1];
      var t := b[|b| - 1];
      MatchingConcat(a, init, hit);
      assert (a + b)[..|a + b| - 1] == a + init;
      var tail := if hit(t) then [t] else [];
      assert Matching(a, hit) + Matching(init, hit) + tail
          == Matching(a, hit) + (Matching(init, hit) + tail);
    }
  }

  /** Some transcript of `ms` cannot be printed. */
  ghost predicate SomeUnprintable(ms: seq<Transcript>)
  {
    exists i :: 0 <= i < |ms| && Unprintable(ms[i])
  }

  /** The scan keeps the matching transcripts in order up to and including
      the first one that cannot be printed, and it raises exactly when that
      last one cannot be printed. */
  lemma {:induction false} ScanPrefix(items: seq<Transcript>, hit: Transcript -> bool)
    ensures var sc := ScanBatch(items, hit);
            var ms := Matching(items, hit);
            |sc.found| <= |ms| && sc.found == ms[..|sc.found|]
            && (forall j :: 0 <= j < |sc.found| - 1 ==> !Unprintable(sc.found[j]))
            && (sc.raised <==> sc.found != [] && Unprintable(sc.found[|sc.found| - 1]))
            && (!sc.raised ==> sc.found == ms)
  {
    if items != [] {
      var init := items[..|items| - 1];
      var t := items[|items| - 1];
      ScanPrefix(init, hit);
      var v := ScanBatch(init, hit);
      var m0 := Matching(init, hit);
      var ms := Matching(items, hit);
      assert ms[..|m0|] == m0;
      if !v.raised && hit(t) {
        assert ms == m0 + [t];
      } else if !v.raised {
        assert ms == m0;
      } else {
        assert ms[..|v.found|] == m0[..|v.found|];
      }
    }
  }

  /** The scan raises exactly when some matching transcript cannot be
      printed. */
  lemma ScanRaises(items: seq<Transcript>, hit: Transcript -> bool)
    ensures ScanBatch(items, hit).raised <==> SomeUnprintable(Matching(items, hit))
  {
    ScanPrefix(items, hit);
    var sc := ScanBatch(items, hit);
    var ms := Matching(items, hit);
    if sc.raised {
      var k := |sc.found| - 1;
      assert ms[k] == sc.found[k];
    } else {
      forall i | 0 <= i < |ms| ensures !Unprintable(ms[i]) {
        assert ms[i] == sc.found[i];
      }
    }
  }

  // ----- the paging loop -----

  datatype Step = Stop(found: seq<Transcript>, total: nat, interrupted: bool) | GoOn(found: seq<Transcript>, total: nat)

  /** One pass of `while total_checked < limit` at offset `skip`: a query
      that raises and a missing or empty batch end the loop; an error while
      printing a meeting ends it before `total_checked` counts the batch; the
      progress line's `batch[-1]['dateString']` and a short batch end it
      after. */
  function DomainStep(pages: Pages, hit: Transcript -> bool, skip: nat, total: nat, acc: seq<Transcript>): (r: Step)
    ensures r.GoOn? ==> r.total > total
  {
    match pages(skip)
    case Batch(items) =>
      if items == [] then Stop(acc, total, false)
      else
        var sc := ScanBatch(items, hit);
        if sc.raised then Stop(acc + sc.found, total, true)
        else if items[|items| - 1].dateString.Absent? || |items| < PageSize then
          Stop(acc + sc.found, total + |items|, false)
        else GoOn(acc + sc.found, total + |items|)
    case _ => Stop(acc, total, false)
  }

  /** What the loop returns and counts, the offsets it queried, and whether
      it ended inside a batch before counting it. */
  datatype Searched = Searched(found: seq<Transcript>, total: nat, queries: seq<nat>, interrupted: bool)

  function Search(pages: Pages, hit: Transcript -> bool, limit: nat, skip: nat, total: nat, acc: seq<Transcript>): Searched
    decreases limit - total
  {
    if total >= limit then Searched(acc, total, [], false)
    else
      match DomainStep(pages, hit, skip, total, acc)
      case Stop(f, n, i) => Searched(f, n, [skip], i)
      case GoOn(f, n) =>
        var rest := Search(pages, hit, limit, skip + PageSize, n, f);
        Searched(rest.found, rest.total, [skip] + rest.queries, rest.interrupted)
  }

  /** `test_domain_search(domain, limit)`. */
  function FindByDomain(server: Server, domain: string, limit: nat): Searched
  {
    Search(PagesOf(server), DomainTest(domain), limit, 0, 0, [])
  }

  /** The meetings the batches at the offsets `qs` contribute, batch after
      batch. */
  function AllFound(pages: Pages, hit: Transcript -> bool, qs: seq<nat>): seq<Transcript>
  {
    if qs == [] then [] else ScanBatch(PageItems(pages(qs[0])), hit).found + AllFound(pages, hit, qs[1..])
  }

  lemma AllFoundCons(pages: Pages, hit: Transcript -> bool, q: nat, qs: seq<nat>)
    ensures AllFound(pages, hit, [q] + qs) == ScanBatch(PageItems(pages(q)), hit).found + AllFound(pages, hit, qs)
  {
    assert ([q] + qs)[1..] == qs;
  }

  lemma StopSearch(pages: Pages, hit: Transcript -> bool, limit: nat, skip: nat, total: nat, acc: seq<Transcript>)
    requires total < limit && DomainStep(pages, hit, skip, total, acc).Stop?
    ensures var st := DomainStep(pages, hit, skip, total, acc);
            Search(pages, hit, limit, skip, total, acc) == Searched(st.found, st.total, [skip], st.interrupted)
  {
  }

  lemma GoOnSearch(pages: Pages, hit: Transcript -> bool, limit: nat, skip: nat, total: nat, acc: seq<Transcript>)
    requires total < limit && DomainStep(pages, hit, skip, total, acc).GoOn?
    ensures var st := DomainStep(pages, hit, skip, total, acc);
            var rest := Search(pages, hit, limit, skip + PageSize, st.total, st.found);
            Search(pages, hit, limit, skip, total, acc)
              == Searched(rest.found, rest.total, [skip] + rest.queries, rest.interrupted)
  {
  }

  lemma LimitReached(pages: Pages, hit: Transcript -> bool, limit: nat, skip: nat, total: nat, acc: seq<Transcript>)
    requires total >= limit
    ensures Search(pages, hit, limit, skip, total, acc) == Searched(acc, total, [], false)
  {
  }

  /** A pass adds the meetings of its batch, partial ones included, counts
      the batch unless it was interrupted, and is interrupted exactly when
      the scan of its batch raised. */
  lemma StepCounts(pages: Pages, hit: Transcript -> bool, skip: nat, total: nat, acc: seq<Transcript>)
    ensures var st := DomainStep(pages, hit, skip, total, acc);
            var sc := ScanBatch(PageItems(pages(skip)), hit);
            var n := |PageItems(pages(skip))|;
            st.found == acc + sc.found
            && (st.GoOn? ==> st.total == total + n && !sc.raised)
            && (st.Stop? ==> st.total + (if st.interrupted then n else 0) == total + n
                             && (st.interrupted <==> sc.raised))
  {
    assert acc + [] == acc;
  }

  /** A pass adds the meetings its scan found. */
  lemma StepFound(pages: Pages, hit: Transcript -> bool, skip: nat, total: nat, acc: seq<Transcript>)
    ensures DomainStep(pages, hit, skip, total, acc).found == acc + ScanBatch(PageItems(pages(skip)), hit).found
  {
    assert acc + [] == acc;
  }

  lemma FoundAtStop(pages: Pages, hit: Transcript -> bool, limit: nat, skip: nat, total: nat, acc: seq<Transcript>)
    requires total < limit && DomainStep(pages, hit, skip, total, acc).Stop?
    ensures var r := Search(pages, hit, limit, skip, total, acc);
            r.found == acc + AllFound(pages, hit, r.queries)
  {
    StepCounts(pages, hit, skip, total, acc);
    StopSearch(pages, hit, limit, skip, total, acc);
    AllFoundCons(pages, hit, skip, []);
    var sf := ScanBatch(PageItems(pages(skip)), hit).found;
    assert sf + [] == sf;
  }

  /** Going on, the search returns what the rest of it returns, after
      one more offset; the pass added its scan's meetings. */
  lemma GoOnParts(pages: Pages, hit: Transcript -> bool, limit: nat, skip: nat, total: nat, acc: seq<Transcript>)
    requires total < limit && DomainStep(pages, hit, skip, total, acc).GoOn?
    ensures var st := DomainStep(pages, hit, skip, total, acc);
            var rest := Search(pages, hit, limit, skip + PageSize, st.total, st.found);
            var r := Search(pages, hit, limit, skip, total, acc);
            r.found == rest.found && r.queries == [skip] + rest.queries
            && st.found == acc + ScanBatch(PageItems(pages(skip)), hit).found
  {
    StepFound(pages, hit, skip, total, acc);
    GoOnSearch(pages, hit, limit, skip, total, acc);
  }

  lemma FoundAtGoOn(pages: Pages, hit: Transcript -> bool, limit: nat, skip: nat, total: nat, acc: seq<Transcript>)
    requires total < limit && DomainStep(pages, hit, skip, total, acc).GoOn?
    requires var st := DomainStep(pages, hit, skip, total, acc);
             var rest := Search(pages, hit, limit, skip + PageSize, st.total, st.found);
             rest.found == st.found + AllFound(pages, hit, rest.queries)
    ensures var r := Search(pages, hit, limit, skip, total, acc);
            r.found == acc + AllFound(pages, hit, r.queries)
  {
    var st := DomainStep(pages, hit, skip, total, acc);
    var rest := Search(pages, hit, limit, skip + PageSize, st.total, st.found);
    GoOnParts(pages, hit, limit, skip, total, acc);
    AllFoundCons(pages, hit, skip, rest.queries);
    var sf := ScanBatch(PageItems(pages(skip)), hit).found;
    var later := AllFound(pages, hit, rest.queries);
    ConcatAssoc(acc, sf, later);
  }

  /** The meetings returned are the ones found before and those of every
      batch queried, in order: an error keeps what was found. */
  lemma {:induction false} SearchFound(pages: Pages, hit: Transcript -> bool, limit: nat, skip: nat, total: nat, acc: seq<Transcript>)
    ensures var r := Search(pages, hit, limit, skip, total, acc);
            r.found == acc + AllFound(pages, hit, r.queries)
    decreases limit - total
  {
    if total >= limit {
      assert acc + [] == acc;
    } else if DomainStep(pages, hit, skip, total, acc).Stop? {
      FoundAtStop(pages, hit, limit, skip, total, acc);
    } else {
      var st := DomainStep(pages, hit, skip, total, acc);
      SearchFound(pages, hit, limit, skip + PageSize, st.total, st.found);
      FoundAtGoOn(pages, hit, limit, skip, total, acc);
    }
  }

  /** `total_checked` counts every batch handed over but an interrupted last
      one, and the search is interrupted exactly when the scan of its last
      batch raised. */
  lemma {:induction false} SearchTotal(pages: Pages, hit: Transcript -> bool, limit: nat, skip: nat, total: nat, acc: seq<Transcript>)
    ensures var r := Search(pages, hit, limit, skip, total, acc);
            (r.interrupted ==> r.queries != [])
            && (r.queries != [] ==>
                  (r.interrupted <==> ScanBatch(PageItems(pages(r.queries[|r.queries| - 1])), hit).raised))
            && r.total + (if r.interrupted then |PageItems(pages(r.queries[|r.queries| - 1]))| else 0)
               == total + BatchTotal(pages, r.queries)
    decreases limit - total
  {
    var r := Search(pages, hit, limit, skip, total, acc);
    if total < limit {
      var st := DomainStep(pages, hit, skip, total, acc);
      StepCounts(pages, hit, skip, total, acc);
      if st.Stop? {
        StopSearch(pages, hit, limit, skip, total, acc);
        assert BatchTotal(pages, [skip]) == |PageItems(pages(skip))|;
      } else {
        GoOnSearch(pages, hit, limit, skip, total, acc);
        var rest := Search(pages, hit, limit, skip + PageSize, st.total, st.found);
        SearchTotal(pages, hit, limit, skip + PageSize, st.total, st.found);
        assert ([skip] + rest.queries)[1..] == rest.queries;
        if rest.queries != [] {
          assert r.queries[|r.queries| - 1] == rest.queries[|rest.queries| - 1];
        }
      }
    }
  }

  /** The queries go to the offsets skip, skip + 10, ... */
  lemma {:induction false} SearchOffsets(pages: Pages, hit: Transcript -> bool, limit: nat, skip: nat, total: nat, acc: seq<Transcript>)
    ensures SteppedFrom(Search(pages, hit, limit, skip, total, acc).queries, skip, PageSize)
    decreases limit - total
  {
    if total < limit {
      var st := DomainStep(pages, hit, skip, total, acc);
      if st.Stop? {
        StopSearch(pages, hit, limit, skip, total, acc);
      } else {
        GoOnSearch(pages, hit, limit, skip, total, acc);
        var rest := Search(pages, hit, limit, skip + PageSize, st.total, st.found);
        SearchOffsets(pages, hit, limit, skip + PageSize, st.total, st.found);
        SteppedCons(rest.queries, skip, PageSize);
      }
    }
  }

  /** Each query is sent while fewer than `limit` transcripts were counted. */
  lemma {:induction false} SearchBelowLimit(pages: Pages, hit: Transcript -> bool, limit: nat, skip: nat, total: nat, acc: seq<Transcript>, k: nat)
    requires k < |Search(pages, hit, limit, skip, total, acc).queries|
    ensures var qs := Search(pages, hit, limit, skip, total, acc).queries;
            total + BatchTotal(pages, qs[..k]) < limit
    decreases limit - total
  {
    var qs := Search(pages, hit, limit, skip, total, acc).queries;
    var st := DomainStep(pages, hit, skip, total, acc);
    if k == 0 {
      assert qs[..0] == [];
    } else {
      GoOnSearch(pages, hit, limit, skip, total, acc);
      StepCounts(pages, hit, skip, total, acc);
      var rest := Search(pages, hit, limit, skip + PageSize, st.total, st.found).queries;
      SearchBelowLimit(pages, hit, limit, skip + PageSize, st.total, st.found, k - 1);
      assert qs[..k] == [skip] + rest[..k - 1];
      BatchTotalCons(pages, skip, rest[..k - 1]);
    }
  }

  /** The query at `q` handed over a batch of ten or more, scanned and
      reported without an error. */
  predicate FullCleanBatch(pages: Pages, q: nat, hit: Transcript -> bool)
  {
    pages(q).Batch? && |pages(q).items| >= PageSize && !ScanBatch(pages(q).items, hit).raised
    && !pages(q).items[|pages(q).items| - 1].dateString.Absent?
  }

  /** The loop goes on only after a full batch without error. */
  lemma {:induction false} SearchContinues(pages: Pages, hit: Transcript -> bool, limit: nat, skip: nat, total: nat, acc: seq<Transcript>, k: nat)
    requires k < |Search(pages, hit, limit, skip, total, acc).queries| - 1
    ensures FullCleanBatch(pages, Search(pages, hit, limit, skip, total, acc).queries[k], hit)
    decreases limit - total
  {
    var qs := Search(pages, hit, limit, skip, total, acc).queries;
    var st := DomainStep(pages, hit, skip, total, acc);
    if total < limit && st.GoOn? {
      GoOnSearch(pages, hit, limit, skip, total, acc);
      var rest := Search(pages, hit, limit, skip + PageSize, st.total, st.found).queries;
      if k > 0 {
        SearchContinues(pages, hit, limit, skip + PageSize, st.total, st.found, k - 1);
        assert qs[k] == rest[k - 1];
      }
    }
  }

  /** Batches scanned without an error contribute exactly their matching
      transcripts. */
  lemma {:induction false} CleanFound(pages: Pages, hit: Transcript -> bool, qs: seq<nat>)
    requires forall k :: 0 <= k < |qs| ==> !ScanBatch(PageItems(pages(qs[k])), hit).raised
    ensures AllFound(pages, hit, qs) == Matching(Stream(pages, qs), hit)
  {
    if qs != [] {
      var items := PageItems(pages(qs[0]));
      assert !ScanBatch(PageItems(pages(qs[0])), hit).raised;
      ScanPrefix(items, hit);
      assert forall k :: 0 <= k < |qs[1..]| ==> qs[1..][k] == qs[k + 1];
      CleanFound(pages, hit, qs[1..]);
      MatchingConcat(items, Stream(pages, qs[1..]), hit);
    }
  }

  /** The search from offset 0: meetings from the batches queried, in order,
      and exactly the matching transcripts handed over when no meeting failed
      to print; the count of the batches handed over; one query per step of
      ten, each sent below `limit` counted transcripts; every query but the
      last a full batch without error. */
  lemma DomainSearchProperties(pages: Pages, hit: Transcript -> bool, limit: nat)
    ensures var r := Search(pages, hit, limit, 0, 0, []);
            var qs := r.queries;
            (limit > 0 <==> |qs| >= 1) && Stepped(qs, PageSize)
            && r.found == AllFound(pages, hit, qs)
            && (!r.interrupted ==> r.found == Matching(Stream(pages, qs), hit))
            && r.total + (if r.interrupted then |PageItems(pages(qs[|qs| - 1]))| else 0) == BatchTotal(pages, qs)
            && (forall k :: 0 <= k < |qs| ==> BatchTotal(pages, qs[..k]) < limit)
            && (forall k :: 0 <= k < |qs| - 1 ==> FullCleanBatch(pages, qs[k], hit))
  {
    var r := Search(pages, hit, limit, 0, 0, []);
    var qs := r.queries;
    SearchFound(pages, hit, limit, 0, 0, []);
    assert [] + AllFound(pages, hit, qs) == AllFound(pages, hit, qs);
    SearchTotal(pages, hit, limit, 0, 0, []);
    SearchOffsets(pages, hit, limit, 0, 0, []);
    forall k | 0 <= k < |qs| ensures BatchTotal(pages, qs[..k]) < limit {
      SearchBelowLimit(pages, hit, limit, 0, 0, [], k);
    }
    forall k | 0 <= k < |qs| - 1 ensures FullCleanBatch(pages, qs[k], hit) {
      SearchContinues(pages, hit, limit, 0, 0, [], k);
    }
    if !r.interrupted {
      forall k | 0 <= k < |qs| ensures !ScanBatch(PageItems(pages(qs[k])), hit).raised {
        if k < |qs| - 1 {
          SearchContinues(pages, hit, limit, 0, 0, [], k);
        }
      }
      CleanFound(pages, hit, qs);
    }
  }

  /** Every meeting a batch contributes is one of its transcripts that
      passes `hit`. */
  lemma {:induction false} AllFoundMembers(pages: Pages, hit: Transcript -> bool, qs: seq<nat>)
    ensures forall t :: t in AllFound(pages, hit, qs) ==> t in Stream(pages, qs) && hit(t)
  {
    if qs != [] {
      var items := PageItems(pages(qs[0]));
      ScanPrefix(items, hit);
      MatchingMembers(items, hit);
      AllFoundMembers(pages, hit, qs[1..]);
      var sc := ScanBatch(items, hit);
      var ms := Matching(items, hit);
      forall t | t in sc.found ensures t in ms {
        var j :| 0 <= j < |sc.found| && sc.found[j] == t;
        assert ms[j] == t;
      }
    }
  }

  /** `test_domain_search` returns only transcripts handed over with an
      address in the domain, ignoring case, and, unless printing one of them
      failed, all of them. */
  lemma FindByDomainProperties(server: Server, domain: string, limit: nat)
    ensures var r := FindByDomain(server, domain, limit);
            var stream := Stream(PagesOf(server), r.queries);
            (forall t :: t in r.found ==> t in stream && DomainFound(t, domain))
            && (!r.interrupted ==> forall t :: t in stream && DomainFound(t, domain) ==> t in r.found)
  {
    var pages := PagesOf(server);
    var hit := DomainTest(domain);
    var r := FindByDomain(server, domain, limit);
    DomainSearchProperties(pages, hit, limit);
    AllFoundMembers(pages, hit, r.queries);
    MatchingMembers(Stream(pages, r.queries), hit);
  }

  // ----- the loops -----

  /** The collection of `all_emails` for one transcript. */
  method AllEmailsOf(t: Transcript) returns (emails: seq<string>)
    ensures emails == AllEmails(t)
  {
    emails := [];
    if Truthy(t.hostEmail) {
      emails := emails + [t.hostEmail.value];
    }
    if Truthy(t.organizerEmail) {
      emails := emails + [t.organizerEmail.value];
    }
    assert emails == TruthyAddress(t.hostEmail) + TruthyAddress(t.organizerEmail);
    var more := CollectParticipants(Items(t.participants));
    emails := emails + more;
    more := CollectUsers(Items(t.firefliesUsers));
    emails := emails + more;
    more := CollectAttendees(Items(t.meetingAttendees));
    emails := emails + more;
  }

  /** `any(email.lower().endswith(f"@{domain.lower()}") for email in all_emails)`. */
  method AnyMatches(emails: seq<string>, domain: string) returns (b: bool)
    ensures b == AnyMatch(emails, domain)
  {
    var suffix := "@" + Lower(domain);
    for i := 0 to |emails|
      invariant AnyMatch(emails[i..], domain) == AnyMatch(emails, domain)
    {
      assert emails[i..][1..] == emails[i + 1..];
      if EndsWith(Lower(emails[i]), suffix) {
        return true;
      }
    }
    return false;
  }

  lemma {:induction false} RaisedStays(items: seq<Transcript>, hit: Transcript -> bool, i: nat, n: nat)
    requires i <= n <= |items| && ScanBatch(items[..i], hit).raised
    ensures ScanBatch(items[..n], hit) == ScanBatch(items[..i], hit)
    decreases n - i
  {
    if i < n {
      RaisedStays(items, hit, i, n - 1);
      assert items[..n][..n - 1] == items[..n - 1];
    }
  }

  /** `hit` is the `domain_found` test for `domain`. The trigger keeps the
      test from being unfolded where only `hit` is reasoned about. */
  ghost predicate Decides(hit: Transcript -> bool, domain: string)
  {
    forall t {:trigger DomainFound(t, domain)} :: hit(t) == DomainFound(t, domain)
  }

  /** `for transcript in batch`. */
  method ScanBatchFor(batch: seq<Transcript>, domain: string, ghost hit: Transcript -> bool)
    returns (found: seq<Transcript>, raised: bool)
    requires Decides(hit, domain)
    ensures Scanned(found, raised) == ScanBatch(batch, hit)
  {
    found, raised := [], false;
    for i := 0 to |batch|
      invariant Scanned(found, false) == ScanBatch(batch[..i], hit)
    {
      assert batch[..i + 1][..i] == batch[..i];
      var t := batch[i];
      var emails := AllEmailsOf(t);
      var domainFound := AnyMatches(emails, domain);
      assert domainFound == DomainFound(t, domain);
      if domainFound {
        found := found + [t];
        if t.title.Absent? || t.dateString.Absent? {
          raised := true;
          RaisedStays(batch, hit, i + 1, |batch|);
          assert batch[..|batch|] == batch;
          return;
        }
      }
    }
    assert batch[..|batch|] == batch;
  }

  /** One pass of `while total_checked < limit`; `stop` is a `break`. */
  method DomainPass(server: Server, domain: string, ghost hit: Transcript -> bool, skip: nat, total: nat, acc: seq<Transcript>)
    returns (found: seq<Transcript>, nextSkip: nat, newTotal: nat, stop: bool)
    requires Decides(hit, domain)
    ensures var st := DomainStep(PagesOf(server), hit, skip, total, acc);
            found == st.found && newTotal == st.total && (stop <==> st.Stop?)
            && (st.GoOn? ==> nextSkip == skip + PageSize)
  {
    var page := PageOf(ExecuteQuery(server(skip)));
    if !page.Batch? || page.items == [] {
      return acc, skip, total, true;
    }
    var batch := page.items;
    var more, raised := ScanBatchFor(batch, domain, hit);
    found := acc + more;
    if raised {
      return found, skip, total, true;
    }
    nextSkip := skip + PageSize;
    newTotal := total + |batch|;
    stop := batch[|batch| - 1].dateString.Absent? || |batch| < PageSize;
  }

  /** `test_domain_search`, with `total_checked` handed back beside the
      meetings found. */
  method TestDomainSearch(server: Server, domain: string, limit: nat)
    returns (foundMeetings: seq<Transcript>, totalChecked: nat)
    ensures foundMeetings == FindByDomain(server, domain, limit).found
    ensures totalChecked == FindByDomain(server, domain, limit).total
  {
    ghost var pages := PagesOf(server);
    ghost var hit := DomainTest(domain);
    ghost var target := FindByDomain(server, domain, limit);
    forall t ensures hit(t) == DomainFound(t, domain) {
    }
    foundMeetings := [];
    var skip: nat := 0;
    totalChecked := 0;
    while totalChecked < limit
      invariant Search(pages, hit, limit, skip, totalChecked, foundMeetings).found == target.found
      invariant Search(pages, hit, limit, skip, totalChecked, foundMeetings).total == target.total
      decreases limit - totalChecked
    {
      ghost var s0, t0, a0 := skip, totalChecked, foundMeetings;
      var stop;
      foundMeetings, skip, totalChecked, stop := DomainPass(server, domain, hit, skip, totalChecked, foundMeetings);
      if stop {
        StopSearch(pages, hit, limit, s0, t0, a0);
        return;
      }
      GoOnSearch(pages, hit, limit, s0, t0, a0);
    }
    LimitReached(pages, hit, limit, skip, totalChecked, foundMeetings);
  }
}
